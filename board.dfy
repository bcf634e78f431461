/** The three-peg board: configurations as values, the legality rule, the
    pop / try-push / restore move, and the board object the game mutates. */
module Hanoi {
  import opened Wrappers
  import opened PegStack

  /** Three pegs, each listed top first. */
  type Config = seq<seq<nat>>

  /** A move of the top disk of peg `from` onto peg `to`. */
  datatype Move = Move(from: nat, to: nat)

  /** Disks lo..hi, smallest on top. */
  function Span(lo: nat, hi: nat): (r: seq<nat>)
    ensures |r| == if lo <= hi then hi - lo + 1 else 0
    ensures Ordered(r)
    ensures forall i :: 0 <= i < |r| ==> r[i] == lo + i
    decreases if lo <= hi then hi - lo + 1 else 0
  {
    if lo > hi then [] else [lo] + Span(lo + 1, hi)
  }

  /** Disks 1..n, smallest on top. */
  function Tower(n: nat): seq<nat> {
    Span(1, n)
  }

  /** The starting setup: every disk on peg 0, pegs 1 and 2 empty. */
  function Canonical(n: nat): Config {
    [Tower(n), [], []]
  }

  /** The disks on the board, counted with multiplicity. */
  function Disks(c: Config): multiset<nat>
  {
    if c == [] then multiset{} else multiset(c[0]) + Disks(c[1..])
  }

  lemma {:induction false} DisksOfThree(c: Config)
    requires |c| == 3
    ensures Disks(c) == multiset(c[0]) + multiset(c[1]) + multiset(c[2])
  {
    var c1, c2 := c[1..], c[1..][1..];
    assert c1[0] == c[1] && c2[0] == c[2] && c2[1..] == [];
    assert Disks(c2) == multiset(c[2]) + Disks(c2[1..]);
    assert Disks(c1) == multiset(c[1]) + Disks(c2);
  }

  /** Three pegs, each size-ordered. */
  predicate Stacked(c: Config) {
    |c| == 3 && Ordered(c[0]) && Ordered(c[1]) && Ordered(c[2])
  }

  /** The board invariant: size-ordered pegs holding exactly the disks 1..n once each. */
  predicate Game(c: Config, n: nat) {
    Stacked(c) && Disks(c) == DiskSet(n)
  }

  /** The disks 1..n, each once. */
  function DiskSet(n: nat): multiset<nat> {
    multiset(Tower(n))
  }

  /** The win test: peg 2 holds `n` disks. */
  predicate Solved(c: Config, n: nat) {
    |c| == 3 && |c[2]| == n
  }

  /** A move `generateMoves` offers: distinct pegs, a disk to lift, and a destination that takes it. */
  predicate Legal(c: Config, m: Move) {
    m.from < |c| && m.to < |c| && m.from != m.to && c[m.from] != [] && CanPush(c[m.to], c[m.from][0])
  }

  /** The pop / try-push / restore pattern on values: lift the top disk of
      `from` and push it onto `to`; `None` when the push is refused, in which
      case the disk goes back and nothing has changed. */
  function Transfer(c: Config, m: Move): (r: Option<Config>)
    requires m.from < |c| && m.to < |c| && c[m.from] != []
    ensures m.from != m.to ==> (r.Some? <==> Legal(c, m))
    ensures r.Some? ==> |r.value| == |c|
  {
    var d := c[m.from][0];
    var rest := c[m.from := c[m.from][1..]];
    if CanPush(rest[m.to], d) then Some(rest[m.to := [d] + rest[m.to]]) else None
  }

  /** A legal move takes the top disk of `from` onto `to` and touches no other peg. */
  lemma {:induction false} TransferMoves(c: Config, m: Move)
    requires Legal(c, m)
    ensures var r := Transfer(c, m).value;
      r[m.from] == c[m.from][1..] && r[m.to] == [c[m.from][0]] + c[m.to] &&
      forall k :: 0 <= k < |c| && k != m.from && k != m.to ==> r[k] == c[k]
  {
  }

  /** Popping a disk and pushing it back onto the same size-ordered peg always
      succeeds and leaves the board as it was. */
  lemma {:induction false} TransferSelf(c: Config, p: nat)
    requires p < |c| && c[p] != [] && Ordered(c[p])
    ensures Transfer(c, Move(p, p)) == Some(c)
  {
    var d := c[p][0];
    var rest := c[p := c[p][1..]];
    assert rest[p] == c[p][1..];
    assert CanPush(rest[p], d) by {
      if rest[p] != [] { assert c[p][0] < c[p][1]; }
    }
    assert [d] + c[p][1..] == c[p];
    assert rest[p := [d] + rest[p]] == c;
  }

  /** A successful transfer keeps every peg size-ordered and keeps the disks. */
  lemma {:induction false} TransferKeeps(c: Config, m: Move)
    requires Stacked(c) && m.from < 3 && m.to < 3 && c[m.from] != [] && Transfer(c, m).Some?
    ensures Stacked(Transfer(c, m).value) && Disks(Transfer(c, m).value) == Disks(c)
  {
    if m.from == m.to {
      TransferSelf(c, m.from);
    } else {
      var d := c[m.from][0];
      var tail := c[m.from][1..];
      var r := Transfer(c, m).value;
      TransferMoves(c, m);
      assert CanPush(c[m.to], d);
      assert Ordered(r[m.to]) by { PushedOrdered(c[m.to], d); }
      assert Ordered(r[m.from]) by { TailOrdered(c[m.from]); }
      assert r == [r[0], r[1], r[2]];
      MovedDisks(c, r, m.from, m.to);
      DisksOfThree(c);
      DisksOfThree(r);
    }
  }

  lemma {:induction false} PushedOrdered(s: seq<nat>, d: nat)
    requires Ordered(s) && CanPush(s, d)
    ensures Ordered([d] + s)
  {
    assert Ordered(Pushed(s, d));
  }

  lemma {:induction false} TailOrdered(s: seq<nat>)
    requires Ordered(s) && s != []
    ensures Ordered(s[1..])
  {
  }

  /** Moving the top disk of one peg onto another of the three keeps the multiset of disks. */
  lemma {:induction false} MovedDisks(c: Config, r: Config, from: nat, to: nat)
    requires |c| == 3 && |r| == 3 && from < 3 && to < 3 && from != to && c[from] != []
    requires r[from] == c[from][1..] && r[to] == [c[from][0]] + c[to]
    requires forall k :: 0 <= k < 3 && k != from && k != to ==> r[k] == c[k]
    ensures multiset(r[0]) + multiset(r[1]) + multiset(r[2]) == multiset(c[0]) + multiset(c[1]) + multiset(c[2])
  {
    var d := c[from][0];
    assert c[from] == [d] + r[from];
    var o := 3 - from - to;
    assert r[o] == c[o];
  }

  /** Plays a move list, every move of which must be legal; `None` at the first one that is not. */
  function Replay(c: Config, ms: seq<Move>): Option<Config>
    decreases |ms|
  {
    if ms == [] then Some(c)
    else if Legal(c, ms[0]) then Replay(Transfer(c, ms[0]).value, ms[1..])
    else None
  }

  /** `ms` is a legal move list from `c` that ends with peg 2 full. */
  predicate Solves(c: Config, ms: seq<Move>, n: nat) {
    var r := Replay(c, ms);
    r.Some? && Solved(r.value, n)
  }

  /** Every move names one of the three pegs. */
  predicate OnBoard(ms: seq<Move>) {
    forall i :: 0 <= i < |ms| ==> ms[i].from < 3 && ms[i].to < 3
  }

  /** One applied move peels one step off `Exec`. */
  lemma {:induction false} ExecStep(c: Config, ms: seq<Move>)
    requires |c| == 3 && OnBoard(ms) && ms != [] && c[ms[0].from] != [] && Transfer(c, ms[0]).Some?
    ensures Exec(c, ms) == (Exec(Transfer(c, ms[0]).value, ms[1..]).0, Exec(Transfer(c, ms[0]).value, ms[1..]).1 + 1)
  {
  }

  /** An empty source or a refused push ends `Exec` with no further move. */
  lemma {:induction false} ExecStop(c: Config, ms: seq<Move>)
    requires |c| == 3 && OnBoard(ms) && ms != []
    requires c[ms[0].from] == [] || Transfer(c, ms[0]).None?
    ensures Exec(c, ms) == (c, 0)
  {
  }

  /** What the synchronous body of `executeMoves` does with a move list:
      it stops at an empty source peg or at a refused push (after putting the
      disk back); the result is the final board and how many moves were made. */
  function Exec(c: Config, ms: seq<Move>): (Config, nat)
    requires |c| == 3 && OnBoard(ms)
    decreases |ms|
  {
    if ms == [] || c[ms[0].from] == [] then (c, 0)
    else match Transfer(c, ms[0])
      case None => (c, 0)
      case Some(c') =>
        var (f, k) := Exec(c', ms[1..]);
        (f, k + 1)
  }

  lemma {:induction false} ReplaySnoc(c: Config, ms: seq<Move>, m: Move)
    ensures Replay(c, ms + [m]) ==
      match Replay(c, ms)
      case None => None
      case Some(v) => if Legal(v, m) then Some(Transfer(v, m).value) else None
    decreases |ms|
  {
    if ms == [] {
      assert [] + [m] == [m];
    } else {
      assert (ms + [m])[1..] == ms[1..] + [m];
      if Legal(c, ms[0]) {
        ReplaySnoc(Transfer(c, ms[0]).value, ms[1..], m);
      }
    }
  }

  /** A legal move list ends with a legal move from the board its other moves reach. */
  lemma {:induction false} ReplayInit(c: Config, ms: seq<Move>)
    requires ms != [] && Replay(c, ms).Some?
    ensures Replay(c, ms[..|ms| - 1]).Some?
    ensures Legal(Replay(c, ms[..|ms| - 1]).value, ms[|ms| - 1])
    ensures Replay(c, ms).value == Transfer(Replay(c, ms[..|ms| - 1]).value, ms[|ms| - 1]).value
  {
    assert ms[..|ms| - 1] + [ms[|ms| - 1]] == ms;
    ReplaySnoc(c, ms[..|ms| - 1], ms[|ms| - 1]);
  }

  /** Legal play from a size-ordered board keeps it size-ordered and keeps its disks. */
  lemma {:induction false} ReplayKeeps(c: Config, ms: seq<Move>)
    requires Stacked(c) && Replay(c, ms).Some?
    ensures Stacked(Replay(c, ms).value) && Disks(Replay(c, ms).value) == Disks(c)
    decreases |ms|
  {
    if ms != [] {
      TransferKeeps(c, ms[0]);
      ReplayKeeps(Transfer(c, ms[0]).value, ms[1..]);
    }
  }

  /** `executeMoves` keeps a size-ordered board size-ordered, with the same disks. */
  lemma {:induction false} ExecKeeps(c: Config, ms: seq<Move>)
    requires Stacked(c) && OnBoard(ms)
    ensures Stacked(Exec(c, ms).0) && Disks(Exec(c, ms).0) == Disks(c)
    decreases |ms|
  {
    if ms != [] && c[ms[0].from] != [] && Transfer(c, ms[0]).Some? {
      TransferKeeps(c, ms[0]);
      ExecKeeps(Transfer(c, ms[0]).value, ms[1..]);
    }
  }

  /** A legal move list is played in full by `executeMoves`, to the same final board. */
  lemma {:induction false} ExecPlaysLegalLists(c: Config, ms: seq<Move>)
    requires |c| == 3 && Replay(c, ms).Some?
    ensures OnBoard(ms) && Exec(c, ms) == (Replay(c, ms).value, |ms|)
    decreases |ms|
  {
    if ms != [] {
      var c' := Transfer(c, ms[0]).value;
      ExecPlaysLegalLists(c', ms[1..]);
      assert OnBoard(ms) by {
        forall i | 0 <= i < |ms| ensures ms[i].from < 3 && ms[i].to < 3 {
          if i > 0 { assert ms[i] == ms[1..][i - 1]; }
        }
      }
    }
  }

  /** Two size-ordered pegs with the same disks are the same peg. */
  lemma {:induction false} OrderedUnique(s: seq<nat>, t: seq<nat>)
    requires Ordered(s) && Ordered(t) && multiset(s) == multiset(t)
    ensures s == t
    decreases |s|
  {
    if s != [] {
      assert s[0] in multiset(t);
      assert t != [];
      assert t[0] in multiset(s);
      HeadIsLeast(s, t[0]);
      HeadIsLeast(t, s[0]);
      assert s[0] == t[0];
      DropHead(s, t);
      TailOrdered(s);
      TailOrdered(t);
      OrderedUnique(s[1..], t[1..]);
      assert s == [s[0]] + s[1..] && t == [t[0]] + t[1..];
    }
  }

  lemma {:induction false} HeadIsLeast(s: seq<nat>, x: nat)
    requires Ordered(s) && x in s
    ensures s[0] <= x
  {
    var i :| 0 <= i < |s| && s[i] == x;
    if i > 0 { TopIsSmallest(s, i); }
  }

  lemma {:induction false} DropHead(s: seq<nat>, t: seq<nat>)
    requires s != [] && t != [] && s[0] == t[0] && multiset(s) == multiset(t)
    ensures multiset(s[1..]) == multiset(t[1..])
  {
    assert s == [s[0]] + s[1..];
    assert t == [t[0]] + t[1..];
    assert multiset(s) == multiset{s[0]} + multiset(s[1..]);
    assert multiset(t) == multiset{s[0]} + multiset(t[1..]);
    forall x ensures multiset(s[1..])[x] == multiset(t[1..])[x] {
      assert multiset(s)[x] == multiset{s[0]}[x] + multiset(s[1..])[x];
      assert multiset(t)[x] == multiset{s[0]}[x] + multiset(t[1..])[x];
    }
  }

  /** On a board that keeps the invariant, the win test holds exactly when every
      disk sits on peg 2 in order, pegs 0 and 1 being empty. */
  lemma {:induction false} SolvedIsGoal(c: Config, n: nat)
    requires Game(c, n)
    ensures Solved(c, n) <==> c == [[], [], Tower(n)]
  {
    DisksOfThree(c);
    if Solved(c, n) {
      assert |Disks(c)| == |c[0]| + |c[1]| + |c[2]|;
      assert c[0] == [] && c[1] == [];
      OrderedUnique(c[2], Tower(n));
      assert c == [c[0], c[1], c[2]];
    }
  }

  lemma {:induction false} CanonicalIsGame(n: nat)
    ensures Game(Canonical(n), n)
    ensures n > 0 ==> !Solved(Canonical(n), n)
  {
    DisksOfThree(Canonical(n));
  }

  /** The value-level outcome of a successful pop-then-push inside `Board.Shift`. */
  lemma {:induction false} ShiftDone(before: Config, m: Move, after: Config)
    requires Stacked(before) && m.from < 3 && m.to < 3 && before[m.from] != [] && |after| == 3
    requires var d := before[m.from][0];
      var t1 := if m.from == m.to then before[m.from][1..] else before[m.to];
      CanPush(t1, d) && after[m.to] == [d] + t1 &&
      (m.from != m.to ==> after[m.from] == before[m.from][1..]) &&
      forall k :: 0 <= k < 3 && k != m.from && k != m.to ==> after[k] == before[k]
    ensures Transfer(before, m) == Some(after)
  {
    if m.from == m.to {
      TransferSelf(before, m.from);
      assert [before[m.from][0]] + before[m.from][1..] == before[m.from];
      assert after == [after[0], after[1], after[2]];
      assert after == before;
    } else {
      TransferMoves(before, m);
      var r := Transfer(before, m).value;
      assert forall k | 0 <= k < 3 :: after[k] == r[k];
      assert after == r;
    }
  }

  /** A refused push inside `Board.Shift` can only happen between two different pegs. */
  lemma {:induction false} ShiftRefused(before: Config, m: Move)
    requires Stacked(before) && m.from < 3 && m.to < 3 && before[m.from] != []
    requires !CanPush(if m.from == m.to then before[m.from][1..] else before[m.to], before[m.from][0])
    ensures m.from != m.to && Transfer(before, m) == None
  {
  }

  /** The move of the click handler as written, which is also the drop
      handler's move: it trusts that the remembered source peg still holds a
      disk. On an empty peg `pop` gives `null`, which `push` stores as
      `Number(null)`, the disk 0. The result pairs the new board with whether
      a move was counted. */
  function ClickAsWritten(c: Config, m: Move): (r: (Config, bool))
    requires m.from < |c| && m.to < |c|
    ensures |r.0| == |c|
    ensures Stacked(c) && c[m.from] != [] ==>
      r == if Legal(c, m) then (Transfer(c, m).value, true) else (c, false)
  {
    if m.from == m.to then (c, false)
    else if c[m.from] == [] then
      if CanPush(c[m.to], 0) then (c[m.to := [0] + c[m.to]], true)
      else (c[m.from := [0]], false)
    else
      match Transfer(c, m)
      case Some(next) => (next, true)
      case None =>
        var s := c[m.from];
        assert Ordered(s) ==> c[m.from := Pushed(s[1..], s[0])] == c by {
          if Ordered(s) {
            assert [s[0]] + s[1..] == s;
          }
        }
        (c[m.from := Pushed(s[1..], s[0])], false)
  }

  /** Every disk on a board of disks 1..n is at least 1. */
  lemma {:induction false} DiskPositive(c: Config, n: nat, p: nat)
    requires Game(c, n) && p < 3 && c[p] != []
    ensures c[p][0] > 0
  {
    DisksOfThree(c);
    var d := c[p][0];
    assert d in multiset(c[p]);
    assert d in multiset(Tower(n));
    var i :| 0 <= i < |Tower(n)| && Tower(n)[i] == d;
  }

  /** A board holding the disk 0 is not a board of disks 1..n. */
  lemma {:induction false} ZeroBreaksGame(c: Config, n: nat, p: nat)
    requires |c| == 3 && p < 3 && 0 in c[p]
    ensures !Game(c, n)
  {
    DisksOfThree(c);
    assert 0 in Disks(c);
    assert forall i :: 0 <= i < |Tower(n)| ==> Tower(n)[i] != 0;
    assert 0 !in DiskSet(n);
  }

  /** Clicking from an empty selected peg: `AttemptMove` would refuse the
      move, but the handler as written counts it and leaves the disk 0 on
      the board, which then no longer holds exactly the disks 1..n. */
  lemma {:induction false} EmptyClickBreaksGame(c: Config, n: nat, m: Move)
    requires Game(c, n) && m.from < 3 && m.to < 3 && m.from != m.to && c[m.from] == []
    ensures !Legal(c, m)
    ensures ClickAsWritten(c, m).1 && !Game(ClickAsWritten(c, m).0, n)
  {
    if c[m.to] != [] {
      DiskPositive(c, n, m.to);
    }
    var r := ClickAsWritten(c, m).0;
    assert r[m.to][0] == 0;
    ZeroBreaksGame(r, n, m.to);
  }

  /** The input that shows it: select peg 1 while it holds a disk, press
      Reset (the selection survives `initializePegs`), then click peg 2. */
  lemma {:induction false} ClickAfterReset(n: nat)
    ensures ClickAsWritten(Canonical(n), Move(1, 2)) == ([Tower(n), [], [0]], true)
    ensures !Game(ClickAsWritten(Canonical(n), Move(1, 2)).0, n)
  {
    var c := Canonical(n);
    CanonicalIsGame(n);
    EmptyClickBreaksGame(c, n, Move(1, 2));
    assert c[1] == [] && [0] + c[2] == [0];
    var r := c[2 := [0]];
    assert |r| == 3 && r[0] == Tower(n) && r[1] == [] && r[2] == [0];
    assert r == [Tower(n), [], [0]];
  }

  /** The drop handler's input: a drag released away from the pegs leaves
      `sourcePegIndex` at peg 0; a drag started while the solver runs keeps
      it; dropped on peg 1 once the solve has emptied peg 0, the move
      pushes the disk 0 and is counted. */
  lemma {:induction false} DropAfterSolve(n: nat)
    ensures ClickAsWritten([[], [], Tower(n)], Move(0, 1)) == ([[], [0], Tower(n)], true)
    ensures !Game(ClickAsWritten([[], [], Tower(n)], Move(0, 1)).0, n)
  {
    var c: Config := [[], [], Tower(n)];
    assert c[0] == [] && c[1] == [] && [0] + c[1] == [0];
    var r := c[1 := [0]];
    assert |r| == 3 && r[0] == [] && r[1] == [0] && r[2] == Tower(n);
    assert r == [[], [0], Tower(n)];
    ZeroBreaksGame(r, n, 1);
  }

  /** The board of the game: three pegs, the disk count and the move counter. */
  class Board {
    const pegs: seq<Stack>
    const totalDisks: nat
    var moveCount: nat

    /** Exactly three distinct peg objects. */
    ghost predicate Shape()
      reads this
    {
      |pegs| == 3 && pegs[0] != pegs[1] && pegs[0] != pegs[2] && pegs[1] != pegs[2]
    }

    ghost function State(): (c: Config)
      reads this, pegs
      requires Shape()
      ensures |c| == 3
    {
      [pegs[0].disks, pegs[1].disks, pegs[2].disks]
    }

    /** Three distinct pegs, each a valid stack. */
    ghost predicate PegsValid()
      reads this, pegs
    {
      Shape() && pegs[0].Valid() && pegs[1].Valid() && pegs[2].Valid()
    }

    /** Valid pegs that between them hold disks 1..totalDisks, each once. */
    ghost predicate Valid()
      reads this, pegs
    {
      PegsValid() && Disks(State()) == DiskSet(totalDisks)
    }

    constructor (n: nat)
      ensures Valid() && totalDisks == n && moveCount == 0
      ensures State() == Canonical(n)
      ensures fresh(pegs[0]) && fresh(pegs[1]) && fresh(pegs[2])
    {
      var a := new Stack();
      var b := new Stack();
      var c := new Stack();
      pegs := [a, b, c];
      totalDisks := n;
      moveCount := 0;
      new;
      InitializePegs();
    }

    /** The setup of a new game and of a reset: clear every peg, push
        totalDisks down to 1 onto peg 0, zero the counter. */
    method InitializePegs()
      requires Shape()
      modifies this, pegs
      ensures Valid() && moveCount == 0
      ensures State() == Canonical(totalDisks)
    {
      pegs[0].Clear();
      pegs[1].Clear();
      pegs[2].Clear();
      var i: nat := totalDisks;
      while i >= 1
        invariant i <= totalDisks
        invariant pegs[0].Valid() && pegs[0].disks == Span(i + 1, totalDisks)
        invariant pegs[1].Valid() && pegs[1].disks == []
        invariant pegs[2].Valid() && pegs[2].disks == []
      {
        var ok := pegs[0].Push(i);
        assert ok;
        i := i - 1;
      }
      moveCount := 0;
      assert State() == Canonical(totalDisks);
      CanonicalIsGame(totalDisks);
    }

    /** The pop / try-push / restore-on-failure body shared by `executeMoves`,
        `dropHandler` and `handlePegClick`; a success counts one move. */
    method Shift(m: Move) returns (ok: bool)
      requires PegsValid() && m.from < 3 && m.to < 3 && pegs[m.from].disks != []
      modifies this, pegs
      ensures PegsValid()
      ensures ok <==> Transfer(old(State()), m).Some?
      ensures State() == if ok then Transfer(old(State()), m).value else old(State())
      ensures moveCount == if ok then old(moveCount) + 1 else old(moveCount)
    {
      ghost var before := State();
      var src, dst := pegs[m.from], pegs[m.to];
      ghost var s0, t0 := src.disks, dst.disks;
      ghost var d := s0[0];
      assert s0 == [d] + s0[1..];
      var disk := src.Pop();
      assert disk == Some(d) && src.disks == s0[1..];
      ghost var t1 := dst.disks;
      assert t1 == if m.from == m.to then s0[1..] else t0;
      ok := dst.Push(disk.value);
      assert ok <==> CanPush(t1, d);
      if ok {
        assert dst.disks == [d] + t1;
        moveCount := moveCount + 1;
        ShiftDone(before, m, State());
      } else {
        var back := src.Push(disk.value);
        assert back;
        assert src.disks == s0;
        assert State() == before;
        ShiftRefused(before, m);
      }
      assert before == old(State());
    }

    /** A player's move: refused with no change when both pegs are the same,
        when `from` is empty, or when the destination's top disk is smaller. */
    method AttemptMove(from: nat, to: nat) returns (ok: bool)
      requires Valid() && from < 3 && to < 3
      modifies this, pegs
      ensures Valid()
      ensures ok <==> Legal(old(State()), Move(from, to))
      ensures ok ==> State() == Transfer(old(State()), Move(from, to)).value && moveCount == old(moveCount) + 1
      ensures !ok ==> State() == old(State()) && moveCount == old(moveCount)
    {
      if from == to || pegs[from].IsEmpty() {
        return false;
      }
      ok := Shift(Move(from, to));
      if ok {
        TransferKeeps(old(State()), Move(from, to));
      }
    }

    /** The win test of the game loop: peg 2 holds every disk. */
    function IsSolved(): (r: bool)
      reads this, pegs
      requires Valid()
      ensures r <==> State() == [[], [], Tower(totalDisks)]
    {
      SolvedIsGoal(State(), totalDisks);
      pegs[2].Size() == totalDisks
    }

    /** The move loop of `executeMoves`: take moves off the front of the
        list, stopping at an empty source peg or at the first refused push. */
    method PlayMoves(ms: seq<Move>) returns (applied: nat)
      requires PegsValid() && OnBoard(ms)
      modifies this, pegs
      ensures PegsValid()
      ensures (State(), applied) == Exec(old(State()), ms)
      ensures moveCount == old(moveCount) + applied
    {
      applied := 0;
      var rest := ms;
      while rest != []
        invariant PegsValid() && OnBoard(rest)
        invariant Exec(old(State()), ms) == (Exec(State(), rest).0, Exec(State(), rest).1 + applied)
        invariant moveCount == old(moveCount) + applied
      {
        var m := rest[0];
        ghost var before := State();
        if pegs[m.from].IsEmpty() {
          ExecStop(before, rest);
          break;
        }
        var ok := Shift(m);
        if !ok {
          ExecStop(before, rest);
          break;
        }
        ExecStep(before, rest);
        rest := rest[1..];
        applied := applied + 1;
      }
    }

    /** `executeMoves` without its pacing: play the list, then the win test
        on the final board. */
    method ExecuteMoves(ms: seq<Move>) returns (applied: nat, solved: bool)
      requires Valid() && OnBoard(ms)
      modifies this, pegs
      ensures Valid()
      ensures (State(), applied) == Exec(old(State()), ms)
      ensures moveCount == old(moveCount) + applied
      ensures solved <==> State() == [[], [], Tower(totalDisks)]
      ensures Replay(old(State()), ms).Some? ==> State() == Replay(old(State()), ms).value && applied == |ms|
      ensures Solves(old(State()), ms, totalDisks) ==> solved
    {
      ghost var before := State();
      applied := PlayMoves(ms);
      ExecKeeps(before, ms);
      solved := IsSolved();
      if Replay(before, ms).Some? {
        ExecPlaysLegalLists(before, ms);
        SolvedIsGoal(State(), totalDisks);
      }
    }
  }
}
