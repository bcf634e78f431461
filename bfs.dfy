/** The proof side of the breadth-first search: the finite pool of boards,
    the queue entries, the search invariants and the lemmas that carry them
    from one step of the search to the next. */
module Bfs {
  import opened Wrappers
  import opened PegStack
  import opened Hanoi
  import opened StateKey

  /** The size-ordered pegs whose disks all lie in lo..hi-1: a finite set. */
  function Chains(lo: nat, hi: nat): set<seq<nat>>
    decreases if lo < hi then hi - lo else 0
  {
    if lo >= hi then {[]}
    else
      var rest := Chains(lo + 1, hi);
      rest + set t | t in rest :: [lo] + t
  }

  /** Every size-ordered peg with disks in lo..hi-1 is one of `Chains(lo, hi)`. */
  lemma {:induction false} InChains(s: seq<nat>, lo: nat, hi: nat)
    requires Ordered(s) && forall i :: 0 <= i < |s| ==> lo <= s[i] < hi
    ensures s in Chains(lo, hi)
    decreases if lo < hi then hi - lo else 0
  {
    if s != [] {
      assert lo <= s[0] < hi;
      forall i | 0 < i < |s|
        ensures s[0] < s[i]
      {
        TopIsSmallest(s, i);
      }
      if s[0] == lo {
        var t := s[1..];
        assert forall i :: 0 <= i < |t| ==> t[i] == s[i + 1];
        InChains(t, lo + 1, hi);
        assert s == [lo] + t;
      } else {
        InChains(s, lo + 1, hi);
      }
    } else if lo < hi {
      InChains(s, lo + 1, hi);
    }
  }

  /** One more than the largest disk on a peg (0 for an empty peg). */
  function PegBound(s: seq<nat>): (b: nat)
    ensures forall i :: 0 <= i < |s| ==> s[i] < b
    decreases |s|
  {
    if s == [] then 0
    else
      var b := PegBound(s[1..]);
      if s[0] < b then b else s[0] + 1
  }

  /** One more than the largest disk on the board. */
  function Bound(c: Config): (b: nat)
    requires |c| == 3
    ensures forall p, i :: 0 <= p < 3 && 0 <= i < |c[p]| ==> c[p][i] < b
  {
    var b0, b1, b2 := PegBound(c[0]), PegBound(c[1]), PegBound(c[2]);
    if b0 >= b1 && b0 >= b2 then b0 else if b1 >= b2 then b1 else b2
  }

  /** Every three-peg board of size-ordered pegs with disks below `hi`. */
  function Universe(hi: nat): set<Config> {
    var ch := Chains(0, hi);
    set a, b, d | a in ch && b in ch && d in ch :: [a, b, d]
  }

  /** Their keys: the finite pool the visited set is drawn from. */
  function UniverseKeys(hi: nat): set<Key> {
    set c | c in Universe(hi) :: Serialize(c)
  }

  /** A board reached from `c0` by legal moves has its key in the pool. */
  lemma {:induction false} KeyInUniverse(c0: Config, c: Config)
    requires Stacked(c0) && Stacked(c) && Disks(c) == Disks(c0)
    ensures Serialize(c) in UniverseKeys(Bound(c0))
  {
    var hi := Bound(c0);
    DisksOfThree(c);
    DisksOfThree(c0);
    forall p | 0 <= p < 3
      ensures c[p] in Chains(0, hi)
    {
      forall i | 0 <= i < |c[p]|
        ensures c[p][i] < hi
      {
        var x := c[p][i];
        assert x in multiset(c[p]);
        assert x in Disks(c0);
        assert x in multiset(c0[0]) || x in multiset(c0[1]) || x in multiset(c0[2]);
      }
      InChains(c[p], 0, hi);
    }
    assert c == [c[0], c[1], c[2]];
    assert c in Universe(hi);
  }

  /** Set difference against a growing set. */
  lemma {:induction false} PoolShrinks(u: set<Key>, v: set<Key>, k: Key)
    requires k in u && k !in v
    ensures |u - (v + {k})| < |u - v|
  {
    assert u - (v + {k}) == (u - v) - {k};
  }

  /** A queue entry: a state key and the moves that lead to it. */
  datatype Entry = Entry(pegs: Key, moves: seq<Move>)

  /** `ms` is legal from `c0` and ends on the board whose key is `k`. */
  ghost predicate Leads(c0: Config, ms: seq<Move>, k: Key) {
    Replay(c0, ms).Some? && Serialize(Replay(c0, ms).value) == k
  }

  ghost function QueueKeys(q: seq<Entry>): set<Key> {
    set i | 0 <= i < |q| :: q[i].pegs
  }

  /** Every entry's moves lead to its key. */
  ghost predicate Tracked(c0: Config, q: seq<Entry>) {
    forall i :: 0 <= i < |q| ==> Leads(c0, q[i].moves, q[i].pegs)
  }

  /** No entry's key is reached in fewer moves than the entry records. */
  ghost predicate Shortest(c0: Config, q: seq<Entry>) {
    forall i, ms :: 0 <= i < |q| && Leads(c0, ms, q[i].pegs) ==> |q[i].moves| <= |ms|
  }

  /** Entries in FIFO order have non-decreasing move counts between `lo` and `lo + 1`. */
  ghost predicate Levels(q: seq<Entry>, lo: nat) {
    forall i, j :: 0 <= i <= j < |q| ==> lo <= |q[i].moves| <= |q[j].moves| <= lo + 1
  }

  /** Every board reached in fewer than `level` moves has been taken off the queue. */
  ghost predicate Below(c0: Config, done: set<Key>, level: nat) {
    forall ms :: |ms| < level && Replay(c0, ms).Some? ==> Serialize(Replay(c0, ms).value) in done
  }

  /** Every legal move from a board taken off the queue leads to a visited key. */
  ghost predicate Closed(done: set<Key>, visited: set<Key>) {
    forall k, m :: k in done && Legal(Deserialize(k), m) ==> Serialize(Transfer(Deserialize(k), m).value) in visited
  }

  /** No board taken off the queue passed the win test. */
  ghost predicate Unsolved(done: set<Key>, n: nat) {
    forall k :: k in done ==> !Solved(Deserialize(k), n)
  }

  /** A board reached by legal moves is size-ordered and is rebuilt from its key. */
  lemma {:induction false} Reachable(c0: Config, ms: seq<Move>)
    requires Stacked(c0) && Replay(c0, ms).Some?
    ensures Stacked(Replay(c0, ms).value) && Disks(Replay(c0, ms).value) == Disks(c0)
    ensures Deserialize(Serialize(Replay(c0, ms).value)) == Replay(c0, ms).value
  {
    ReplayKeeps(c0, ms);
    RoundTrip(Replay(c0, ms).value);
  }

  /** With everything below `level` expanded, every board at most `level`
      moves away has been visited. */
  lemma {:induction false} Reached(c0: Config, done: set<Key>, visited: set<Key>, level: nat, ms: seq<Move>)
    requires Stacked(c0) && Serialize(c0) in visited
    requires Below(c0, done, level) && Closed(done, visited)
    requires |ms| <= level && Replay(c0, ms).Some?
    ensures Serialize(Replay(c0, ms).value) in visited
  {
    if ms != [] {
      var p := ms[..|ms| - 1];
      ReplayInit(c0, ms);
      assert Serialize(Replay(c0, p).value) in done;
      ClosedStep(c0, done, visited, p, ms[|ms| - 1]);
    }
  }

  /** A legal move from an expanded board leads to a visited key. */
  lemma {:induction false} ClosedStep(c0: Config, done: set<Key>, visited: set<Key>, p: seq<Move>, m: Move)
    requires Stacked(c0) && Replay(c0, p).Some? && Serialize(Replay(c0, p).value) in done
    requires Closed(done, visited) && Legal(Replay(c0, p).value, m)
    ensures Serialize(Transfer(Replay(c0, p).value, m).value) in visited
  {
    var sp := Replay(c0, p).value;
    Reachable(c0, p);
    assert Legal(Deserialize(Serialize(sp)), m);
  }

  /** When the queue runs dry, every reachable board was expanded. */
  lemma {:induction false} AllExpanded(c0: Config, done: set<Key>, ms: seq<Move>)
    requires Stacked(c0) && Serialize(c0) in done && Closed(done, done)
    requires Replay(c0, ms).Some?
    ensures Serialize(Replay(c0, ms).value) in done
    decreases |ms|
  {
    if ms != [] {
      var p, m := ms[..|ms| - 1], ms[|ms| - 1];
      assert p + [m] == ms;
      ReplaySnoc(c0, p, m);
      AllExpanded(c0, done, p);
      var sp := Replay(c0, p).value;
      Reachable(c0, p);
      assert Legal(Deserialize(Serialize(sp)), m);
    }
  }

  /** The start key is visited and every visited key lies in the finite `pool`. */
  ghost predicate Seen(c0: Config, visited: set<Key>, pool: set<Key>) {
    Stacked(c0) && Serialize(c0) in visited && visited <= pool
  }

  /** Expanded keys are closed under legal moves and none of them passed the win test. */
  ghost predicate Settled(n: nat, visited: set<Key>, done: set<Key>) {
    Closed(done, visited) && Unsolved(done, n)
  }

  /** Queue entries are reached by their moves, shortest, and in level order from `lo`. */
  ghost predicate Queued(c0: Config, queue: seq<Entry>, lo: nat) {
    Tracked(c0, queue) && Shortest(c0, queue) && Levels(queue, lo)
  }

  /** The search invariant at the top of the outer loop: `done` holds the keys
      taken off the queue, `visited` those seen so far. */
  ghost predicate Frontier(c0: Config, n: nat, pool: set<Key>, queue: seq<Entry>, visited: set<Key>, done: set<Key>) {
    Seen(c0, visited, pool) && visited == done + QueueKeys(queue) && Settled(n, visited, done) &&
    (queue != [] ==> Queued(c0, queue, |queue[0].moves|) && Below(c0, done, |queue[0].moves|))
  }

  /** The search invariant while the successors of entry `h`, whose board is
      `cur`, are being generated. */
  ghost predicate Expanding(c0: Config, n: nat, pool: set<Key>, h: Entry, cur: Config, queue: seq<Entry>, visited: set<Key>, done: set<Key>) {
    Seen(c0, visited, pool) && Replay(c0, h.moves) == Some(cur) && h.pegs == Serialize(cur) && !Solved(cur, n) &&
    visited == done + {h.pegs} + QueueKeys(queue) && Settled(n, visited, done) &&
    Queued(c0, queue, |h.moves|) && Below(c0, done, |h.moves|)
  }

  /** Every move of `ms` that is legal from `cur` leads to a visited key. */
  ghost predicate Covered(cur: Config, ms: seq<Move>, visited: set<Key>) {
    forall i :: 0 <= i < |ms| && Legal(cur, ms[i]) ==> Serialize(Transfer(cur, ms[i]).value) in visited
  }

  /** The queue holds only the start key before the first iteration. */
  lemma {:induction false} Start(c0: Config, n: nat, pool: set<Key>)
    requires Stacked(c0) && Covers(c0, pool)
    ensures Frontier(c0, n, pool, [Entry(Serialize(c0), [])], {Serialize(c0)}, {})
  {
    var q := [Entry(Serialize(c0), [])];
    assert QueueKeys(q) == {Serialize(c0)};
    assert Replay(c0, []) == Some(c0);
  }

  /** Taking the head off the queue keeps the per-entry facts of the rest. */
  lemma {:induction false} QueueTail(c0: Config, queue: seq<Entry>, lo: nat)
    requires queue != [] && Queued(c0, queue, lo)
    ensures Queued(c0, queue[1..], lo)
    ensures QueueKeys(queue) == {queue[0].pegs} + QueueKeys(queue[1..])
  {
    var q := queue[1..];
    assert forall i :: 0 <= i < |q| ==> q[i] == queue[i + 1];
    forall k | k in QueueKeys(queue)
      ensures k in {queue[0].pegs} + QueueKeys(q)
    {
      var i :| 0 <= i < |queue| && queue[i].pegs == k;
      if i > 0 {
        assert q[i - 1].pegs == k;
      }
    }
  }

  /** Appending an entry adds its key. */
  lemma {:induction false} KeysSnoc(queue: seq<Entry>, e: Entry)
    ensures QueueKeys(queue + [e]) == QueueKeys(queue) + {e.pegs}
  {
    var q := queue + [e];
    assert forall i :: 0 <= i < |queue| ==> q[i] == queue[i];
    assert q[|queue|] == e;
    forall k | k in QueueKeys(q)
      ensures k in QueueKeys(queue) + {e.pegs}
    {
      var i :| 0 <= i < |q| && q[i].pegs == k;
    }
    forall k | k in QueueKeys(queue)
      ensures k in QueueKeys(q)
    {
      var i :| 0 <= i < |queue| && queue[i].pegs == k;
      assert q[i].pegs == k;
    }
  }

  /** Appending an entry one level deeper whose moves are a shortest way to its key. */
  lemma {:induction false} QueueSnoc(c0: Config, queue: seq<Entry>, lo: nat, e: Entry)
    requires Queued(c0, queue, lo)
    requires Leads(c0, e.moves, e.pegs) && |e.moves| == lo + 1
    requires forall ms :: Leads(c0, ms, e.pegs) ==> |e.moves| <= |ms|
    ensures Queued(c0, queue + [e], lo)
  {
    var q := queue + [e];
    assert forall i :: 0 <= i < |queue| ==> q[i] == queue[i];
    assert q[|queue|] == e;
    assert Tracked(c0, q) by {
      forall i | 0 <= i < |q|
        ensures Leads(c0, q[i].moves, q[i].pegs)
      {
        if i < |queue| {
          assert Leads(c0, queue[i].moves, queue[i].pegs);
        }
      }
    }
    assert Shortest(c0, q) by {
      forall i, ms | 0 <= i < |q| && Leads(c0, ms, q[i].pegs)
        ensures |q[i].moves| <= |ms|
      {
        if i < |queue| {
          assert Leads(c0, ms, queue[i].pegs);
        }
      }
    }
  }

  /** No move list shorter than an expanded level solves the puzzle. */
  lemma {:induction false} ShorterUnsolved(c0: Config, n: nat, done: set<Key>, level: nat)
    requires Stacked(c0) && Below(c0, done, level) && Unsolved(done, n)
    ensures forall ms :: |ms| < level ==> !Solves(c0, ms, n)
  {
    forall ms | |ms| < level && Replay(c0, ms).Some?
      ensures !Solved(Replay(c0, ms).value, n)
    {
      Reachable(c0, ms);
      assert Serialize(Replay(c0, ms).value) in done;
    }
  }

  /** A key not yet visited is at least one level deeper than the head. */
  lemma {:induction false} Unseen(c0: Config, done: set<Key>, visited: set<Key>, level: nat, key: Key)
    requires Stacked(c0) && Serialize(c0) in visited
    requires Below(c0, done, level) && Closed(done, visited) && key !in visited
    ensures forall ms :: Leads(c0, ms, key) ==> level + 1 <= |ms|
  {
    forall ms | Leads(c0, ms, key)
      ensures level + 1 <= |ms|
    {
      if |ms| <= level {
        Reached(c0, done, visited, level, ms);
      }
    }
  }

  /** The head of the queue is reached by its moves and rebuilt from its key. */
  lemma {:induction false} Dequeue(c0: Config, n: nat, pool: set<Key>, queue: seq<Entry>, visited: set<Key>, done: set<Key>)
    requires Frontier(c0, n, pool, queue, visited, done) && queue != []
    ensures Replay(c0, queue[0].moves).Some?
    ensures Stacked(Replay(c0, queue[0].moves).value)
    ensures Deserialize(queue[0].pegs) == Replay(c0, queue[0].moves).value
    ensures forall ms :: |ms| < |queue[0].moves| ==> !Solves(c0, ms, n)
  {
    assert Leads(c0, queue[0].moves, queue[0].pegs);
    Reachable(c0, queue[0].moves);
    ShorterUnsolved(c0, n, done, |queue[0].moves|);
  }

  /** A head that fails the win test starts its expansion. */
  lemma {:induction false} Expand(c0: Config, n: nat, pool: set<Key>, queue: seq<Entry>, visited: set<Key>, done: set<Key>, cur: Config)
    requires Frontier(c0, n, pool, queue, visited, done) && queue != []
    requires Replay(c0, queue[0].moves) == Some(cur) && !Solved(cur, n)
    ensures Expanding(c0, n, pool, queue[0], cur, queue[1..], visited, done)
  {
    assert Leads(c0, queue[0].moves, queue[0].pegs);
    QueueTail(c0, queue, |queue[0].moves|);
  }

  /** Enqueuing the board behind an unvisited legal move keeps the invariant. */
  lemma {:induction false} Enqueue(c0: Config, n: nat, pool: set<Key>, h: Entry, cur: Config, queue: seq<Entry>, visited: set<Key>, done: set<Key>, m: Move)
    requires Expanding(c0, n, pool, h, cur, queue, visited, done) && Legal(cur, m)
    requires Serialize(Transfer(cur, m).value) !in visited && Serialize(Transfer(cur, m).value) in pool
    ensures Expanding(c0, n, pool, h, cur, queue + [Entry(Serialize(Transfer(cur, m).value), h.moves + [m])],
                      visited + {Serialize(Transfer(cur, m).value)}, done)
  {
    var next := Transfer(cur, m).value;
    var key := Serialize(next);
    var e := Entry(key, h.moves + [m]);
    ReplaySnoc(c0, h.moves, m);
    assert Replay(c0, e.moves) == Some(next);
    Unseen(c0, done, visited, |h.moves|, key);
    QueueSnoc(c0, queue, |h.moves|, e);
    KeysSnoc(queue, e);
  }

  /** `pool` holds the key of every size-ordered board with the disks of `c0`. */
  ghost predicate Covers(c0: Config, pool: set<Key>) {
    forall c :: Stacked(c) && Disks(c) == Disks(c0) ==> Serialize(c) in pool
  }

  /** Such a finite pool exists: the keys of `UniverseKeys(Bound(c0))`. */
  lemma {:induction false} PoolExists(c0: Config)
    requires Stacked(c0)
    ensures exists pool :: Covers(c0, pool)
  {
    var pool := UniverseKeys(Bound(c0));
    forall c | Stacked(c) && Disks(c) == Disks(c0)
      ensures Serialize(c) in pool
    {
      KeyInUniverse(c0, c);
    }
    assert Covers(c0, pool);
  }

  /** The board behind a legal move from a reached board has its key in the pool. */
  lemma {:induction false} Pooled(c0: Config, pool: set<Key>, ms: seq<Move>, cur: Config, m: Move)
    requires Stacked(c0) && Covers(c0, pool) && Replay(c0, ms) == Some(cur) && Legal(cur, m)
    ensures Serialize(Transfer(cur, m).value) in pool
  {
    ReplaySnoc(c0, ms, m);
    Reachable(c0, ms + [m]);
  }

  /** Expanding `cur` with every successor visited closes it. */
  lemma {:induction false} CloseHead(done: set<Key>, visited: set<Key>, hk: Key, cur: Config, possible: seq<Move>)
    requires Closed(done, visited) && Deserialize(hk) == cur
    requires forall m :: m in possible <==> Legal(cur, m)
    requires Covered(cur, possible, visited)
    ensures Closed(done + {hk}, visited)
  {
    forall k, m | k in done + {hk} && Legal(Deserialize(k), m)
      ensures Serialize(Transfer(Deserialize(k), m).value) in visited
    {
      if k !in done {
        assert m in possible;
        var i :| 0 <= i < |possible| && possible[i] == m;
      }
    }
  }

  /** After expanding a head at `level`, everything below the next head's level is expanded. */
  lemma {:induction false} NextLevel(c0: Config, done: set<Key>, visited: set<Key>, hk: Key, queue: seq<Entry>, level: nat)
    requires Stacked(c0) && Serialize(c0) in visited && queue != []
    requires visited == done + {hk} + QueueKeys(queue)
    requires Shortest(c0, queue) && Levels(queue, level)
    requires Below(c0, done, level) && Closed(done, visited)
    ensures Below(c0, done + {hk}, |queue[0].moves|)
  {
    forall ms | |ms| < |queue[0].moves| && Replay(c0, ms).Some?
      ensures Serialize(Replay(c0, ms).value) in done + {hk}
    {
      if |ms| >= level {
        Reached(c0, done, visited, level, ms);
        var key := Serialize(Replay(c0, ms).value);
        if key !in done + {hk} {
          var i :| 0 <= i < |queue| && queue[i].pegs == key;
          assert Leads(c0, ms, queue[i].pegs);
        }
      }
    }
  }

  /** Level order from `lo` is level order from the head's own level. */
  lemma {:induction false} LevelsFromHead(queue: seq<Entry>, lo: nat)
    requires queue != [] && Levels(queue, lo)
    ensures Levels(queue, |queue[0].moves|)
  {
  }

  /** The head's key, rebuilt to `cur`, joins the expanded keys. */
  lemma {:induction false} SettleHead(c0: Config, n: nat, h: Entry, cur: Config, visited: set<Key>, done: set<Key>, possible: seq<Move>)
    requires Stacked(c0) && Replay(c0, h.moves) == Some(cur) && h.pegs == Serialize(cur) && !Solved(cur, n)
    requires Settled(n, visited, done)
    requires forall m :: m in possible <==> Legal(cur, m)
    requires Covered(cur, possible, visited)
    ensures Settled(n, visited, done + {h.pegs})
  {
    Reachable(c0, h.moves);
    CloseHead(done, visited, h.pegs, cur, possible);
  }

  /** Once every successor of `h` is visited, `h` joins the expanded keys
      and the invariant holds for the next head. */
  lemma {:induction false} Expanded(c0: Config, n: nat, pool: set<Key>, h: Entry, cur: Config, queue: seq<Entry>, visited: set<Key>, done: set<Key>, possible: seq<Move>)
    requires Expanding(c0, n, pool, h, cur, queue, visited, done)
    requires forall m :: m in possible <==> Legal(cur, m)
    requires Covered(cur, possible, visited)
    ensures Frontier(c0, n, pool, queue, visited, done + {h.pegs})
  {
    SettleHead(c0, n, h, cur, visited, done, possible);
    if queue != [] {
      NextLevel(c0, done, visited, h.pegs, queue, |h.moves|);
      LevelsFromHead(queue, |h.moves|);
    }
  }

  /** An empty queue means every reachable board was expanded and none is solved. */
  lemma {:induction false} Exhausted(c0: Config, n: nat, pool: set<Key>, visited: set<Key>, done: set<Key>)
    requires Frontier(c0, n, pool, [], visited, done)
    ensures forall ms :: !Solves(c0, ms, n)
  {
    assert QueueKeys([]) == {};
    forall ms | Replay(c0, ms).Some?
      ensures !Solved(Replay(c0, ms).value, n)
    {
      AllExpanded(c0, done, ms);
      Reachable(c0, ms);
    }
  }

  /** Entries whose keys do not repeat. */
  predicate Distinct(log: seq<Entry>) {
    forall i, j :: 0 <= i < j < |log| ==> log[i].pegs != log[j].pegs
  }

  /** What the search has gathered: the FIFO queue, the visited keys, and
      the log of every entry ever enqueued, in order. */
  datatype Agenda = Agenda(queue: seq<Entry>, visited: set<Key>, log: seq<Entry>)

  /** One `forEach` callback of `findMoveSequence`: play `m` on a copy of
      `cur`; when the push is taken and the key is new, mark it visited and
      enqueue it with the moves `hm + [m]`. */
  function Visit(cur: Config, hm: seq<Move>, m: Move, a: Agenda): Agenda
    requires m.from < |cur| && m.to < |cur| && cur[m.from] != []
  {
    match Transfer(cur, m)
    case None => a
    case Some(next) =>
      var key := Serialize(next);
      if key in a.visited then a
      else Agenda(a.queue + [Entry(key, hm + [m])], a.visited + {key}, a.log + [Entry(key, hm + [m])])
  }

  /** The whole `possibleMoves.forEach`: visit the moves in order. */
  function Offer(cur: Config, hm: seq<Move>, ms: seq<Move>, a: Agenda): Agenda
    requires forall i :: 0 <= i < |ms| ==> Legal(cur, ms[i])
    decreases |ms|
  {
    if ms == [] then a
    else
      assert Legal(cur, ms[|ms| - 1]);
      Visit(cur, hm, ms[|ms| - 1], Offer(cur, hm, ms[..|ms| - 1], a))
  }

  /** One visit keeps the expansion invariant. */
  lemma {:induction false} VisitKeeps(c0: Config, n: nat, pool: set<Key>, h: Entry, cur: Config, m: Move, a: Agenda, done: set<Key>)
    requires Expanding(c0, n, pool, h, cur, a.queue, a.visited, done) && Covers(c0, pool) && Legal(cur, m)
    ensures var b := Visit(cur, h.moves, m, a); Expanding(c0, n, pool, h, cur, b.queue, b.visited, done)
  {
    var key := Serialize(Transfer(cur, m).value);
    if key in a.visited {
      assert Visit(cur, h.moves, m, a) == a;
    } else {
      assert Visit(cur, h.moves, m, a).queue == a.queue + [Entry(key, h.moves + [m])];
      Pooled(c0, pool, h.moves, cur, m);
      Enqueue(c0, n, pool, h, cur, a.queue, a.visited, done, m);
    }
  }

  /** Offering the successors keeps the expansion invariant. */
  lemma {:induction false} OfferKeeps(c0: Config, n: nat, pool: set<Key>, h: Entry, cur: Config, ms: seq<Move>, a: Agenda, done: set<Key>)
    requires Expanding(c0, n, pool, h, cur, a.queue, a.visited, done) && Covers(c0, pool)
    requires forall i :: 0 <= i < |ms| ==> Legal(cur, ms[i])
    ensures var b := Offer(cur, h.moves, ms, a); Expanding(c0, n, pool, h, cur, b.queue, b.visited, done)
    decreases |ms|
  {
    if ms != [] {
      var p, m := ms[..|ms| - 1], ms[|ms| - 1];
      OfferKeeps(c0, n, pool, h, cur, p, a, done);
      assert Legal(cur, m);
      VisitKeeps(c0, n, pool, h, cur, m, Offer(cur, h.moves, p, a), done);
    }
  }

  /** After the offer every legal move's key is visited, nothing visited is
      forgotten, and when nothing was added the queue is as it was. */
  lemma {:induction false} OfferCovers(cur: Config, hm: seq<Move>, ms: seq<Move>, a: Agenda)
    requires forall i :: 0 <= i < |ms| ==> Legal(cur, ms[i])
    ensures var b := Offer(cur, hm, ms, a);
      Covered(cur, ms, b.visited) && a.visited <= b.visited &&
      (b.visited == a.visited ==> b.queue == a.queue)
    decreases |ms|
  {
    if ms != [] {
      var p, m := ms[..|ms| - 1], ms[|ms| - 1];
      OfferCovers(cur, hm, p, a);
      var b := Offer(cur, hm, p, a);
      var c := Offer(cur, hm, ms, a);
      assert c == Visit(cur, hm, m, b);
      forall i | 0 <= i < |ms| && Legal(cur, ms[i])
        ensures Serialize(Transfer(cur, ms[i]).value) in c.visited
      {
        if i < |p| {
          assert ms[i] == p[i];
        }
      }
    }
  }

  /** Every key the offer adds comes from the pool, so the part of the pool
      not yet visited shrinks whenever something is added. */
  lemma {:induction false} OfferShrinks(c0: Config, pool: set<Key>, cur: Config, hm: seq<Move>, ms: seq<Move>, a: Agenda)
    requires Stacked(c0) && Covers(c0, pool) && Replay(c0, hm) == Some(cur) && a.visited <= pool
    requires forall i :: 0 <= i < |ms| ==> Legal(cur, ms[i])
    ensures var b := Offer(cur, hm, ms, a);
      b.visited <= pool && (b.visited == a.visited || |pool - b.visited| < |pool - a.visited|)
    decreases |ms|
  {
    if ms != [] {
      var p, m := ms[..|ms| - 1], ms[|ms| - 1];
      OfferShrinks(c0, pool, cur, hm, p, a);
      var b := Offer(cur, hm, p, a);
      var key := Serialize(Transfer(cur, m).value);
      if key !in b.visited {
        Pooled(c0, pool, hm, cur, m);
        PoolShrinks(pool, b.visited, key);
      }
    }
  }

  /** One visit keeps the log listing the visited keys, each once. */
  lemma {:induction false} VisitLogs(cur: Config, hm: seq<Move>, m: Move, a: Agenda)
    requires Legal(cur, m) && Distinct(a.log) && a.visited == QueueKeys(a.log)
    ensures var b := Visit(cur, hm, m, a); Distinct(b.log) && b.visited == QueueKeys(b.log)
  {
    var key := Serialize(Transfer(cur, m).value);
    if key !in a.visited {
      var e := Entry(key, hm + [m]);
      KeysSnoc(a.log, e);
      var l := a.log + [e];
      forall i, j | 0 <= i < j < |l| ensures l[i].pegs != l[j].pegs {
        if j == |a.log| {
          assert l[i] == a.log[i] && a.log[i].pegs in QueueKeys(a.log);
        } else {
          assert l[i] == a.log[i] && l[j] == a.log[j];
        }
      }
    }
  }

  /** The log lists the visited keys, each once. */
  lemma {:induction false} OfferLogs(cur: Config, hm: seq<Move>, ms: seq<Move>, a: Agenda)
    requires forall i :: 0 <= i < |ms| ==> Legal(cur, ms[i])
    requires Distinct(a.log) && a.visited == QueueKeys(a.log)
    ensures var b := Offer(cur, hm, ms, a);
      Distinct(b.log) && b.visited == QueueKeys(b.log)
    decreases |ms|
  {
    if ms != [] {
      var p, m := ms[..|ms| - 1], ms[|ms| - 1];
      OfferLogs(cur, hm, p, a);
      assert Legal(cur, m);
      VisitLogs(cur, hm, m, Offer(cur, hm, p, a));
    }
  }

  /** The offer appends the same entries to the queue and to the log. */
  lemma {:induction false} OfferAppends(cur: Config, hm: seq<Move>, ms: seq<Move>, a: Agenda)
    requires forall i :: 0 <= i < |ms| ==> Legal(cur, ms[i])
    ensures var b := Offer(cur, hm, ms, a);
      |a.log| <= |b.log| && b.log == a.log + b.log[|a.log|..] && b.queue == a.queue + b.log[|a.log|..]
    decreases |ms|
  {
    if ms != [] {
      var p, m := ms[..|ms| - 1], ms[|ms| - 1];
      OfferAppends(cur, hm, p, a);
      var b := Offer(cur, hm, p, a);
      var x := b.log[|a.log|..];
      assert Legal(cur, m);
      var key := Serialize(Transfer(cur, m).value);
      if key !in b.visited {
        var e := Entry(key, hm + [m]);
        var c := Offer(cur, hm, ms, a);
        assert c.log == b.log + [e] && c.queue == b.queue + [e];
        assert c.log[|a.log|..] == x + [e];
      }
    }
  }

  /** Every logged entry's moves lead to its key. */
  lemma {:induction false} OfferTracks(c0: Config, cur: Config, hm: seq<Move>, ms: seq<Move>, a: Agenda)
    requires Replay(c0, hm) == Some(cur) && Tracked(c0, a.log)
    requires forall i :: 0 <= i < |ms| ==> Legal(cur, ms[i])
    ensures Tracked(c0, Offer(cur, hm, ms, a).log)
    decreases |ms|
  {
    if ms != [] {
      var p, m := ms[..|ms| - 1], ms[|ms| - 1];
      OfferTracks(c0, cur, hm, p, a);
      var b := Offer(cur, hm, p, a);
      assert Legal(cur, m);
      var key := Serialize(Transfer(cur, m).value);
      if key !in b.visited {
        var e := Entry(key, hm + [m]);
        ReplaySnoc(c0, hm, m);
        assert Leads(c0, e.moves, e.pegs);
        var l := b.log + [e];
        assert Offer(cur, hm, ms, a).log == l;
        forall i | 0 <= i < |l| ensures Leads(c0, l[i].moves, l[i].pegs) {
          if i < |b.log| { assert l[i] == b.log[i]; }
        }
      }
    }
  }

  /** The log of the search from the key `k0` of `c0`: it starts with the
      start entry, every entry's moves lead to its key, no key repeats, the
      visited keys are the logged ones, and the queue is the log's tail. */
  ghost predicate Logged(c0: Config, k0: Key, queue: seq<Entry>, visited: set<Key>, log: seq<Entry>) {
    |log| >= 1 && log[0] == Entry(k0, []) && Tracked(c0, log) && Distinct(log) &&
    visited == QueueKeys(log) && |queue| <= |log| && queue == log[|log| - |queue|..]
  }

  /** The log before the first iteration. */
  lemma {:induction false} LogStart(c0: Config)
    ensures Logged(c0, Serialize(c0), [Entry(Serialize(c0), [])], {Serialize(c0)}, [Entry(Serialize(c0), [])])
  {
    var l := [Entry(Serialize(c0), [])];
    assert l[0].pegs in QueueKeys(l);
    assert QueueKeys(l) == {Serialize(c0)};
    assert Replay(c0, []) == Some(c0);
    assert l[|l| - |l|..] == l;
  }

  /** The head of the queue is a logged entry. */
  lemma {:induction false} LoggedHead(c0: Config, k0: Key, queue: seq<Entry>, visited: set<Key>, log: seq<Entry>)
    requires Logged(c0, k0, queue, visited, log) && queue != []
    ensures 0 <= |log| - |queue| < |log| && log[|log| - |queue|] == queue[0]
  {
  }

  /** The queue stays the log's tail when its head is dropped and both get the same new entries. */
  lemma {:induction false} TailAppend(log: seq<Entry>, queue: seq<Entry>, x: seq<Entry>)
    requires queue != [] && |queue| <= |log| && queue == log[|log| - |queue|..]
    ensures queue[1..] + x == (log + x)[|log + x| - |queue[1..] + x|..]
  {
    var lo := |log| - |queue| + 1;
    assert queue[1..] == log[lo..];
    assert (log + x)[lo..] == log[lo..] + x;
  }

  /** Dropping the head and offering its successors keeps the log. */
  lemma {:induction false} LogStep(c0: Config, k0: Key, cur: Config, ms: seq<Move>, queue: seq<Entry>, visited: set<Key>, log: seq<Entry>)
    requires Logged(c0, k0, queue, visited, log) && queue != [] && Replay(c0, queue[0].moves) == Some(cur)
    requires forall i :: 0 <= i < |ms| ==> Legal(cur, ms[i])
    ensures var b := Offer(cur, queue[0].moves, ms, Agenda(queue[1..], visited, log));
      Logged(c0, k0, b.queue, b.visited, b.log)
  {
    var a := Agenda(queue[1..], visited, log);
    var b := Offer(cur, queue[0].moves, ms, a);
    OfferLogs(cur, queue[0].moves, ms, a);
    OfferTracks(c0, cur, queue[0].moves, ms, a);
    OfferAppends(cur, queue[0].moves, ms, a);
    var x := b.log[|log|..];
    TailAppend(log, queue, x);
    assert b.log == log + x && b.log[0] == log[0];
  }
}
