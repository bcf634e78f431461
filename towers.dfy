/** The classical bound on the puzzle: from the starting setup the recursive
    solution takes 2^n - 1 moves, and no legal move list that fills peg 2
    is shorter. This is the count a shortest search must return. */
module Towers {
  import opened Wrappers
  import opened PegStack
  import opened Hanoi

  function Pow2(k: nat): (r: nat)
    ensures r >= 1
  {
    if k == 0 then 1 else 2 * Pow2(k - 1)
  }

  /** The recursive solution: park the `k - 1` smallest disks on `via`,
      move disk `k`, then bring the small disks back on top of it. */
  function Recursive(k: nat, from: nat, to: nat, via: nat): (r: seq<Move>)
  {
    if k == 0 then []
    else Recursive(k - 1, from, via, to) + [Move(from, to)] + Recursive(k - 1, via, to, from)
  }

  /** The recursive solution for `k` disks has 2^k - 1 moves. */
  lemma {:induction false} RecursiveLength(k: nat, from: nat, to: nat, via: nat)
    ensures |Recursive(k, from, to, via)| == Pow2(k) - 1
  {
    if k > 0 {
      RecursiveLength(k - 1, from, via, to);
      RecursiveLength(k - 1, via, to, from);
    }
  }

  /** Every disk of `s` is larger than `k`. */
  predicate Above(s: seq<nat>, k: nat) {
    forall i :: 0 <= i < |s| ==> s[i] > k
  }

  /** Playing one list after another. */
  lemma {:induction false} ReplayConcat(c: Config, a: seq<Move>, b: seq<Move>)
    ensures Replay(c, a + b) == match Replay(c, a)
      case None => None
      case Some(v) => Replay(v, b)
    decreases |a|
  {
    if a == [] {
      assert a + b == b;
    } else {
      assert (a + b)[0] == a[0] && (a + b)[1..] == a[1..] + b;
      if Legal(c, a[0]) {
        ReplayConcat(Transfer(c, a[0]).value, a[1..], b);
      }
    }
  }

  /** Playing a list, one more move, then a second list. */
  lemma {:induction false} ReplayThree(c: Config, a: seq<Move>, m: Move, b: seq<Move>)
    requires Replay(c, a).Some? && Legal(Replay(c, a).value, m)
    ensures Replay(c, a + [m] + b) == Replay(Transfer(Replay(c, a).value, m).value, b)
  {
    ReplayConcat(c, a, [m]);
    assert [m][1..] == [];
    ReplayConcat(c, a + [m], b);
  }

  lemma {:induction false} TowerSnoc(k: nat)
    requires k > 0
    ensures Tower(k) == Tower(k - 1) + [k]
  {
    var t, u := Tower(k), Tower(k - 1) + [k];
    assert |t| == |u| == k;
    forall i | 0 <= i < k ensures t[i] == u[i] {
      if i < k - 1 { assert u[i] == Tower(k - 1)[i]; }
    }
  }

  /** The middle move of the recursion: disk `k` from the top of `from`
      onto `to`, whose disks are all larger. */
  lemma {:induction false} MoveLargest(c: Config, k: nat, from: nat, to: nat, via: nat, a: seq<nat>)
    requires |c| == 3 && from < 3 && to < 3 && via < 3 && from != to && from != via && to != via
    requires c[from] == [k] + a && Above(c[to], k)
    ensures Legal(c, Move(from, to))
    ensures var r := Transfer(c, Move(from, to)).value;
      |r| == 3 && r[from] == a && r[to] == [k] + c[to] && r[via] == c[via]
  {
    TransferMoves(c, Move(from, to));
  }

  lemma {:induction false} TowerOnTop(k: nat, t: seq<nat>)
    requires k > 0
    ensures Tower(k) + t == Tower(k - 1) + ([k] + t)
  {
    TowerSnoc(k);
  }

  /** The recursive solution lifts the tower `1..k` off the top of `from`
      and rebuilds it on top of `to`, over larger disks only, leaving `via`
      as it was. */
  lemma {:induction false} RecursivePlays(k: nat, c: Config, from: nat, to: nat, via: nat, a: seq<nat>)
    requires |c| == 3 && from < 3 && to < 3 && via < 3 && from != to && from != via && to != via
    requires c[from] == Tower(k) + a && Above(a, k) && Above(c[to], k) && Above(c[via], k)
    ensures var r := Replay(c, Recursive(k, from, to, via));
      r.Some? && |r.value| == 3 && r.value[from] == a &&
      r.value[to] == Tower(k) + c[to] && r.value[via] == c[via]
    decreases k
  {
    if k == 0 {
      assert c[from] == a;
    } else {
      var first, second := Recursive(k - 1, from, via, to), Recursive(k - 1, via, to, from);
      // Park the small disks on `via`.
      TowerOnTop(k, a);
      RecursivePlays(k - 1, c, from, via, to, [k] + a);
      var c1 := Replay(c, first).value;
      // Move disk `k`.
      MoveLargest(c1, k, from, to, via, a);
      var c2 := Transfer(c1, Move(from, to)).value;
      // Bring the small disks back on top of it.
      RecursivePlays(k - 1, c2, via, to, from, c[via]);
      ReplayThree(c, first, Move(from, to), second);
      TowerOnTop(k, c[to]);
    }
  }

  /** From the starting setup the recursive solution fills peg 2 in 2^n - 1 legal moves. */
  lemma {:induction false} RecursiveSolves(n: nat)
    ensures Solves(Canonical(n), Recursive(n, 0, 2, 1), n)
    ensures Replay(Canonical(n), Recursive(n, 0, 2, 1)) == Some([[], [], Tower(n)])
    ensures |Recursive(n, 0, 2, 1)| == Pow2(n) - 1
  {
    var c := Canonical(n);
    assert c[0] == Tower(n) + [];
    RecursivePlays(n, c, 0, 2, 1, []);
    var r := Replay(c, Recursive(n, 0, 2, 1)).value;
    assert r == [r[0], r[1], r[2]];
    assert Tower(n) + [] == Tower(n);
    RecursiveLength(n, 0, 2, 1);
  }

  /** Disks `1..k` all sit on peg `p`. */
  predicate Holds(c: Config, k: nat, p: nat) {
    p < |c| && forall d :: 1 <= d <= k ==> d in c[p]
  }

  /** A size-ordered peg holds no disk twice. */
  lemma {:induction false} OrderedOnce(s: seq<nat>, d: nat)
    requires Ordered(s)
    ensures multiset(s)[d] <= 1
    decreases |s|
  {
    if s != [] {
      assert s == [s[0]] + s[1..];
      TailOrdered(s);
      OrderedOnce(s[1..], d);
      if s[0] == d && d in s[1..] {
        var i :| 0 <= i < |s[1..]| && s[1..][i] == d;
        TopIsSmallest(s, i + 1);
      }
    }
  }

  /** On a board of the game every disk sits on one peg only. */
  lemma {:induction false} OnePeg(c: Config, n: nat, d: nat, x: nat, y: nat)
    requires Game(c, n) && x < 3 && y < 3 && d in c[x] && d in c[y]
    ensures x == y
  {
    assert multiset(c[0])[d] + multiset(c[1])[d] + multiset(c[2])[d] <= 1 by {
      DisksOfThree(c);
      OrderedOnce(Tower(n), d);
    }
    OnceOnThree(c, d, x, y);
  }

  lemma {:induction false} OnceOnThree(c: Config, d: nat, x: nat, y: nat)
    requires |c| == 3 && x < 3 && y < 3 && d in c[x] && d in c[y]
    requires multiset(c[0])[d] + multiset(c[1])[d] + multiset(c[2])[d] <= 1
    ensures x == y
  {
    assert multiset(c[x])[d] >= 1 && multiset(c[y])[d] >= 1;
  }

  /** On a board of the game every disk `1..n` sits on some peg. */
  lemma {:induction false} OnSomePeg(c: Config, n: nat, d: nat)
    requires Game(c, n) && 1 <= d <= n
    ensures d in c[0] || d in c[1] || d in c[2]
  {
    DisksOfThree(c);
    assert Tower(n)[d - 1] == d;
    assert d in multiset(Tower(n));
  }

  /** When disk `k` moves, every smaller disk waits on the third peg. */
  lemma {:induction false} SmallerWait(b: Config, n: nat, k: nat, m: Move)
    requires Game(b, n) && 1 <= k <= n && Legal(b, m) && b[m.from][0] == k
    ensures Holds(b, k - 1, 3 - m.from - m.to)
    ensures Holds(Transfer(b, m).value, k - 1, 3 - m.from - m.to)
  {
    var o := 3 - m.from - m.to;
    TransferMoves(b, m);
    forall d | 1 <= d <= k - 1 ensures d in b[o] {
      OnSomePeg(b, n, d);
      if d in b[m.from] {
        HeadIsLeast(b[m.from], d);
      } else if d in b[m.to] {
        HeadIsLeast(b[m.to], d);
      }
    }
  }

  /** A move that takes disk `k` off peg `p` lifts it from the top of `p`. */
  lemma {:induction false} Lifted(b: Config, m: Move, k: nat, p: nat)
    requires Legal(b, m) && p < |b| && k in b[p] && k !in Transfer(b, m).value[p]
    ensures m.from == p && b[p][0] == k
  {
    TransferMoves(b, m);
    assert b[m.from] == [b[m.from][0]] + b[m.from][1..];
  }

  /** A move that brings disk `k` onto peg `q` is a move of disk `k` to `q`. */
  lemma {:induction false} Landed(b: Config, m: Move, k: nat, q: nat)
    requires Legal(b, m) && q < |b| && k !in b[q] && k in Transfer(b, m).value[q]
    ensures m.to == q && b[m.from][0] == k
  {
    TransferMoves(b, m);
  }

  /** Somewhere along a legal list that changes whether disk `k` is on peg
      `p`, one move makes that change. It returns that move's index `i`.
      The lemma also gives the board before that move and the board at the
      end of the whole play, reached from just after move `i`. */
  lemma {:induction false} Crossing(c: Config, ms: seq<Move>, k: nat, p: nat) returns (i: nat)
    requires p < |c| && Replay(c, ms).Some? && |Replay(c, ms).value| == |c|
    requires (k in c[p]) != (k in Replay(c, ms).value[p])
    ensures i < |ms| && Replay(c, ms[..i]).Some? && |Replay(c, ms[..i]).value| == |c|
    ensures var b := Replay(c, ms[..i]).value;
      Legal(b, ms[i]) && (k in b[p]) == (k in c[p]) &&
      (k in Transfer(b, ms[i]).value[p]) != (k in c[p]) &&
      Replay(Transfer(b, ms[i]).value, ms[i + 1..]) == Replay(c, ms)
    decreases |ms|
  {
    assert ms != [];
    var c1 := Transfer(c, ms[0]).value;
    assert ms[..0] == [] && ms[0 + 1..] == ms[1..];
    if (k in c1[p]) != (k in c[p]) {
      i := 0;
    } else {
      var j := Crossing(c1, ms[1..], k, p);
      i := j + 1;
      assert ms[..i][0] == ms[0] && ms[..i][1..] == ms[1..][..j];
      assert ms[i] == ms[1..][j] && ms[i + 1..] == ms[1..][j + 1..];
    }
  }

  lemma {:induction false} HoldsFewer(c: Config, k: nat, j: nat, p: nat)
    requires Holds(c, k, p) && j <= k
    ensures Holds(c, j, p)
  {
  }

  /** A disk that ends on `q` does not end on another peg. */
  lemma {:induction false} EndsOff(c: Config, n: nat, ms: seq<Move>, k: nat, p: nat, q: nat)
    requires Game(c, n) && 1 <= k && p < 3 && q < 3 && p != q
    requires Replay(c, ms).Some? && Holds(Replay(c, ms).value, k, q)
    ensures |Replay(c, ms).value| == 3 && k !in Replay(c, ms).value[p]
  {
    var fin := Replay(c, ms).value;
    ReplayKeeps(c, ms);
    if k in fin[p] { OnePeg(fin, n, k, p, q); }
  }

  /** The move that takes disk `k` off `p` leaves every smaller disk on the third peg. */
  lemma {:induction false} LiftOff(b: Config, n: nat, k: nat, m: Move, p: nat)
    requires Game(b, n) && 1 <= k <= n && Legal(b, m) && p < 3 && k in b[p] && k !in Transfer(b, m).value[p]
    ensures m.from == p && 3 - p - m.to < 3 && 3 - p - m.to != p && Holds(b, k - 1, 3 - p - m.to)
  {
    Lifted(b, m, k, p);
    SmallerWait(b, n, k, m);
  }

  /** The first half of the classical argument: disk `k` leaves `p` at some
      move `i`, and just before it every smaller disk waits on a third peg `v`. */
  lemma {:induction false} Departure(k: nat, n: nat, c: Config, ms: seq<Move>, p: nat, q: nat) returns (i: nat, v: nat)
    requires Game(c, n) && 1 <= k <= n && p < 3 && q < 3 && p != q
    requires Holds(c, k, p) && Replay(c, ms).Some? && Holds(Replay(c, ms).value, k, q)
    ensures i < |ms| && v < 3 && v != p && Replay(c, ms[..i]).Some?
    ensures var b := Replay(c, ms[..i]).value;
      |b| == 3 && Holds(b, k - 1, v) && k in b[p] && Replay(b, ms[i..]) == Replay(c, ms)
  {
    EndsOff(c, n, ms, k, p, q);
    i := Crossing(c, ms, k, p);
    var b := Replay(c, ms[..i]).value;
    ReplayKeeps(c, ms[..i]);
    LiftOff(b, n, k, ms[i], p);
    v := 3 - p - ms[i].to;
    var rest := ms[i..];
    assert rest[0] == ms[i] && rest[1..] == ms[i + 1..];
  }

  /** The second half: from a board with disk `k` on `p`, disk `k` lands on
      `q` at some move `j`, after which every smaller disk waits on a peg `w`
      other than `q`, and the rest of the list ends where the whole one does. */
  lemma {:induction false} Arrival(k: nat, n: nat, b: Config, rest: seq<Move>, p: nat, q: nat) returns (j: nat, w: nat)
    requires Game(b, n) && 1 <= k <= n && p < 3 && q < 3 && p != q && k in b[p]
    requires Replay(b, rest).Some? && Holds(Replay(b, rest).value, k, q)
    ensures j < |rest| && w < 3 && w != q && Replay(b, rest[..j]).Some?
    ensures var b2 := Replay(b, rest[..j]).value;
      Legal(b2, rest[j]) &&
      var b3 := Transfer(b2, rest[j]).value;
      Game(b3, n) && Holds(b3, k - 1, w) && Replay(b3, rest[j + 1..]) == Replay(b, rest)
  {
    if k in b[q] { OnePeg(b, n, k, p, q); }
    ReplayKeeps(b, rest);
    j := Crossing(b, rest, k, q);
    var b2 := Replay(b, rest[..j]).value;
    var m2 := rest[j];
    ReplayKeeps(b, rest[..j]);
    Landed(b2, m2, k, q);
    SmallerWait(b2, n, k, m2);
    TransferKeeps(b2, m2);
    w := 3 - m2.from - q;
  }

  /** Moving the tower `1..k` from one peg onto another takes at least
      2^k - 1 moves, whatever the larger disks do meanwhile. */
  lemma {:induction false} AtLeast(k: nat, n: nat, c: Config, ms: seq<Move>, p: nat, q: nat)
    requires Game(c, n) && k <= n && p < 3 && q < 3 && p != q
    requires Holds(c, k, p) && Replay(c, ms).Some? && Holds(Replay(c, ms).value, k, q)
    ensures |ms| >= Pow2(k) - 1
    decreases k, 2
  {
    if k > 0 {
      var i := Halves(k, n, c, ms, p, q);
    }
  }

  /** The list splits where disk `k` leaves `p`: the part before moves the
      tower `1..k-1` away, the part after moves disk `k` and the tower back. */
  lemma {:induction false} Halves(k: nat, n: nat, c: Config, ms: seq<Move>, p: nat, q: nat) returns (i: nat)
    requires Game(c, n) && 1 <= k <= n && p < 3 && q < 3 && p != q
    requires Holds(c, k, p) && Replay(c, ms).Some? && Holds(Replay(c, ms).value, k, q)
    ensures i <= |ms| && i >= Pow2(k - 1) - 1 && |ms| - i >= Pow2(k - 1)
    decreases k, 1
  {
    var v;
    i, v := Departure(k, n, c, ms, p, q);
    assert |ms[..i]| >= Pow2(k - 1) - 1 by {
      HoldsFewer(c, k, k - 1, p);
      AtLeast(k - 1, n, c, ms[..i], p, v);
    }
    assert |ms[i..]| >= Pow2(k - 1) by {
      ReplayKeeps(c, ms[..i]);
      AfterDeparture(k, n, Replay(c, ms[..i]).value, ms[i..], p, q);
    }
  }

  /** From the board where disk `k` is still on `p`, what is left of the
      list moves disk `k` and then the tower `1..k-1`: at least 2^(k-1) moves. */
  lemma {:induction false} AfterDeparture(k: nat, n: nat, b: Config, rest: seq<Move>, p: nat, q: nat)
    requires Game(b, n) && 1 <= k <= n && p < 3 && q < 3 && p != q && k in b[p]
    requires Replay(b, rest).Some? && Holds(Replay(b, rest).value, k, q)
    ensures |rest| >= Pow2(k - 1)
    decreases k, 0
  {
    var j, w := Arrival(k, n, b, rest, p, q);
    var t := rest[j + 1..];
    assert |t| + j + 1 == |rest|;
    assert |t| >= Pow2(k - 1) - 1 by {
      var b3 := Transfer(Replay(b, rest[..j]).value, rest[j]).value;
      HoldsFewer(Replay(b, rest).value, k, k - 1, q);
      AtLeast(k - 1, n, b3, t, w, q);
    }
  }

  /** The starting setup needs at least 2^n - 1 moves: every legal list that
      fills peg 2 is at least that long. */
  lemma {:induction false} NoShorter(n: nat, ms: seq<Move>)
    requires Solves(Canonical(n), ms, n)
    ensures |ms| >= Pow2(n) - 1
  {
    var c := Canonical(n);
    CanonicalIsGame(n);
    var fin := Replay(c, ms).value;
    ReplayKeeps(c, ms);
    SolvedIsGoal(fin, n);
    assert Holds(c, n, 0) by {
      forall d | 1 <= d <= n ensures d in c[0] { assert Tower(n)[d - 1] == d; }
    }
    assert Holds(fin, n, 2) by {
      forall d | 1 <= d <= n ensures d in fin[2] { assert Tower(n)[d - 1] == d; }
    }
    AtLeast(n, n, c, ms, 0, 2);
  }

  /** A search result with the breadth-first contract, taken from the
      starting setup, is a solution of exactly 2^n - 1 moves. */
  lemma {:induction false} ShortestIsPow2(n: nat, r: Option<seq<Move>>)
    requires r.Some? ==> Solves(Canonical(n), r.value, n)
    requires r.Some? ==> forall ms :: |ms| < |r.value| ==> !Solves(Canonical(n), ms, n)
    requires r.None? ==> forall ms :: !Solves(Canonical(n), ms, n)
    ensures r.Some? && |r.value| == Pow2(n) - 1
  {
    var w := Recursive(n, 0, 2, 1);
    RecursiveSolves(n);
    assert r.Some?;
    NoShorter(n, r.value);
  }
}
