/** One peg: a stack of disk sizes that refuses any disk larger than its top. */
module PegStack {
  import opened Wrappers

  /** Disk sizes listed top to bottom strictly increase: every disk rests on a larger one. */
  predicate Ordered(s: seq<nat>) {
    |s| <= 1 || (s[0] < s[1] && Ordered(s[1..]))
  }

  /** The top of a size-ordered peg is smaller than every disk below it. */
  lemma {:induction false} TopIsSmallest(s: seq<nat>, i: nat)
    requires Ordered(s) && 0 < i < |s|
    ensures s[0] < s[i]
    decreases i
  {
    if i > 1 {
      TopIsSmallest(s[1..], i - 1);
    }
  }

  /** The legality test of `push`: the peg is empty or the disk is smaller than the top. */
  predicate CanPush(s: seq<nat>, d: nat) {
    s == [] || d < s[0]
  }

  /** The disks of a peg after `push(d)` (the disk on top when allowed, else the peg unchanged). */
  function Pushed(s: seq<nat>, d: nat): (r: seq<nat>)
    ensures Ordered(s) ==> Ordered(r)
    ensures r == [d] + s || r == s
    ensures |r| == |s| + 1 <==> CanPush(s, d)
  {
    if CanPush(s, d) then [d] + s else s
  }

  class Stack {
    /** The disks reachable from `tail` along the `next` links, top first. */
    var disks: seq<nat>
    /** The `_size` counter. */
    var count: nat

    /** The counter matches the chain, and the chain is size-ordered. */
    ghost predicate Valid()
      reads this
    {
      count == |disks| && Ordered(disks)
    }

    constructor ()
      ensures Valid() && disks == []
    {
      disks := [];
      count := 0;
    }

    /** The top disk, or `None` (the source's `null`) on an empty peg. */
    function Peek(): (r: Option<nat>)
      reads this
      ensures r.Some? <==> disks != []
      ensures r.Some? ==> r.value == disks[0]
    {
      if disks == [] then None else Some(disks[0])
    }

    function Size(): (n: nat)
      reads this
      requires Valid()
      ensures n == |disks|
    {
      count
    }

    function IsEmpty(): (r: bool)
      reads this
      requires Valid()
      ensures r <==> disks == []
      ensures r <==> Size() == 0
    {
      count == 0
    }

    /** The only way a disk gets onto a peg. */
    method Push(d: nat) returns (ok: bool)
      requires Valid()
      modifies this
      ensures Valid()
      ensures ok <==> CanPush(old(disks), d)
      ensures disks == Pushed(old(disks), d)
      ensures ok ==> disks[0] == d && count == old(count) + 1
      ensures !ok ==> disks == old(disks) && count == old(count)
    {
      if IsEmpty() || d < Peek().value {
        disks := [d] + disks;
        count := count + 1;
        ok := true;
      } else {
        ok := false;
      }
    }

    /** Removes the top disk; `None` and no change on an empty peg. */
    method Pop() returns (r: Option<nat>)
      requires Valid()
      modifies this
      ensures Valid()
      ensures r == old(Peek())
      ensures old(disks) == [] ==> disks == old(disks) && count == old(count)
      ensures old(disks) != [] ==> disks == old(disks)[1..] && count == old(count) - 1
    {
      if IsEmpty() {
        return None;
      }
      r := Some(disks[0]);
      disks := disks[1..];
      count := count - 1;
    }

    method Clear()
      modifies this
      ensures Valid() && disks == []
    {
      disks := [];
      count := 0;
    }
  }

  /** What a list of pegs holds, one top-first sequence per peg. */
  ghost function Contents(pegs: seq<Stack>): (c: seq<seq<nat>>)
    reads set i | 0 <= i < |pegs| :: pegs[i]
    ensures |c| == |pegs|
    ensures forall i :: 0 <= i < |pegs| ==> c[i] == pegs[i].disks
  {
    if pegs == [] then [] else [pegs[0].disks] + Contents(pegs[1..])
  }
}
