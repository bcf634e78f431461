/** The automatic solver: `generateMoves` and the breadth-first search
    `findMoveSequence` over state keys. */
module Solver {
  import opened Wrappers
  import opened PegStack
  import opened Hanoi
  import opened StateKey
  import opened Bfs
  import opened Towers

  /** The order `generateMoves` emits moves in: by `from`, then by `to`. */
  predicate Before(a: Move, b: Move) {
    a.from < b.from || (a.from == b.from && a.to < b.to)
  }

  /** `generateMoves`: for each non-empty peg, each other peg that is empty
      or has a larger top disk. */
  method GenerateMoves(c: Config) returns (moves: seq<Move>)
    ensures forall m :: m in moves <==> Legal(c, m)
    ensures forall i, j :: 0 <= i < j < |moves| ==> Before(moves[i], moves[j])
  {
    moves := [];
    var from := 0;
    while from < |c|
      invariant 0 <= from <= |c|
      invariant forall m :: m in moves <==> Legal(c, m) && m.from < from
      invariant forall i, j :: 0 <= i < j < |moves| ==> Before(moves[i], moves[j])
      invariant forall i :: 0 <= i < |moves| ==> moves[i].from < from
    {
      if c[from] != [] {
        var disk := c[from][0];
        var to := 0;
        while to < |c|
          invariant 0 <= to <= |c|
          invariant forall m :: m in moves <==> Legal(c, m) && (m.from < from || (m.from == from && m.to < to))
          invariant forall i, j :: 0 <= i < j < |moves| ==> Before(moves[i], moves[j])
          invariant forall i :: 0 <= i < |moves| ==> moves[i].from < from || (moves[i].from == from && moves[i].to < to)
        {
          if from != to && (c[to] == [] || disk < c[to][0]) {
            moves := moves + [Move(from, to)];
          }
          to := to + 1;
        }
      }
      from := from + 1;
    }
  }

  /** The `possibleMoves.forEach` step of `findMoveSequence`: play each move
      on a copy of the head's board and enqueue every key not yet visited,
      recording it in `visited` and its entry in the ghost log. */
  method EnqueueSuccessors(cur: Config, hm: seq<Move>, possible: seq<Move>,
                           queue0: seq<Entry>, visited0: set<Key>, ghost log0: seq<Entry>)
    returns (queue: seq<Entry>, visited: set<Key>, ghost log: seq<Entry>)
    requires forall i :: 0 <= i < |possible| ==> Legal(cur, possible[i])
    ensures Agenda(queue, visited, log) == Offer(cur, hm, possible, Agenda(queue0, visited0, log0))
  {
    queue, visited, log := queue0, visited0, log0;
    var j := 0;
    while j < |possible|
      invariant 0 <= j <= |possible|
      invariant Agenda(queue, visited, log) == Offer(cur, hm, possible[..j], Agenda(queue0, visited0, log0))
    {
      var m := possible[j];
      assert Legal(cur, m);
      var next := Transfer(cur, m);
      if next.Some? {
        var key := Serialize(next.value);
        if key !in visited {
          var e := Entry(key, hm + [m]);
          visited := visited + {key};
          queue := queue + [e];
          log := log + [e];
        }
      }
      assert possible[..j + 1][..j] == possible[..j];
      j := j + 1;
    }
    assert possible[..j] == possible;
  }

  /** Lines 147-148 of `findMoveSequence`: rebuild the pegs of a three-peg
      key as stacks and apply the win test to them. */
  method LoadBoard(k: Key, n: nat) returns (cur: Config, solved: bool)
    requires |Deserialize(k)| == 3
    ensures cur == Deserialize(k)
    ensures solved <==> Solved(cur, n)
  {
    DeserializeStacks(k);
    var current := DeserializePegs(k);
    cur := [current[0].disks, current[1].disks, current[2].disks];
    assert cur == Contents(current);
    solved := current[2].Size() == n;
  }

  /** The `while (queue.length)` loop of `findMoveSequence`, started from the
      key `k0` of the board `c0`. The queue holds state keys with the moves
      that reach them; a key enters `visited` when it is enqueued. The ghost
      `pushed` lists every entry ever enqueued, starting with the start entry. */
  method Search(k0: Key, ghost c0: Config, n: nat) returns (r: Option<seq<Move>>, ghost pushed: seq<Entry>)
    requires Stacked(c0) && k0 == Serialize(c0)
    ensures r.Some? ==> Solves(c0, r.value, n)
    ensures r.Some? ==> forall ms :: |ms| < |r.value| ==> !Solves(c0, ms, n)
    ensures r.None? ==> forall ms :: !Solves(c0, ms, n)
    ensures Solved(c0, n) ==> r == Some([])
    ensures |pushed| >= 1 && pushed[0] == Entry(k0, [])
    ensures Tracked(c0, pushed) && Distinct(pushed)
    ensures r.Some? ==> exists i :: 0 <= i < |pushed| && pushed[i].moves == r.value
  {
    var queue := [Entry(k0, [])];
    var visited := {k0};
    ghost var done: set<Key> := {};
    PoolExists(c0);
    ghost var pool: set<Key> :| Covers(c0, pool);
    pushed := [Entry(k0, [])];
    Start(c0, n, pool);
    LogStart(c0);
    while queue != []
      invariant Frontier(c0, n, pool, queue, visited, done)
      invariant Solved(c0, n) ==> done == {} && queue == [Entry(Serialize(c0), [])]
      invariant Logged(c0, k0, queue, visited, pushed)
      decreases |pool - visited|, |queue|
    {
      var h := queue[0];
      Dequeue(c0, n, pool, queue, visited, done);
      var cur, solved := LoadBoard(h.pegs, n);
      if solved {
        LoggedHead(c0, k0, queue, visited, pushed);
        return Some(h.moves), pushed;
      }
      Expand(c0, n, pool, queue, visited, done, cur);
      var possible := GenerateMoves(cur);
      assert forall i :: 0 <= i < |possible| ==> Legal(cur, possible[i]) by {
        forall i | 0 <= i < |possible| ensures Legal(cur, possible[i]) {
          assert possible[i] in possible;
        }
      }
      ghost var a := Agenda(queue[1..], visited, pushed);
      OfferKeeps(c0, n, pool, h, cur, possible, a, done);
      OfferCovers(cur, h.moves, possible, a);
      OfferShrinks(c0, pool, cur, h.moves, possible, a);
      LogStep(c0, k0, cur, possible, queue, visited, pushed);
      queue, visited, pushed := EnqueueSuccessors(cur, h.moves, possible, queue[1..], visited, pushed);
      Expanded(c0, n, pool, h, cur, queue, visited, done, possible);
      done := done + {h.pegs};
    }
    Exhausted(c0, n, pool, visited, done);
    r := None;
  }

  /** `findMoveSequence`: breadth-first search from the pegs `start` for a
      board whose peg 2 holds `n` disks. The result is a shortest solution,
      `Some([])` when `start` is already solved, or `None` when no legal move
      list solves the board. From the starting setup it is 2^n - 1 moves
      long. `pushed` lists every entry enqueued, the start entry first; its
      keys do not repeat, and the result is one of its entries' moves. */
  method FindMoveSequence(start: seq<Stack>, n: nat) returns (r: Option<seq<Move>>, ghost pushed: seq<Entry>)
    requires |start| == 3 && forall i :: 0 <= i < 3 ==> start[i].Valid()
    ensures r.Some? ==> Solves(Contents(start), r.value, n)
    ensures r.Some? ==> forall ms :: |ms| < |r.value| ==> !Solves(Contents(start), ms, n)
    ensures r.None? ==> forall ms :: !Solves(Contents(start), ms, n)
    ensures Solved(Contents(start), n) ==> r == Some([])
    ensures Contents(start) == Canonical(n) ==> r.Some? && |r.value| == Pow2(n) - 1
    ensures |pushed| >= 1 && pushed[0] == Entry(Serialize(Contents(start)), [])
    ensures Tracked(Contents(start), pushed) && Distinct(pushed)
    ensures r.Some? ==> exists i :: 0 <= i < |pushed| && pushed[i].moves == r.value
  {
    assert Stacked(Contents(start)) by {
      assert start[0].Valid() && start[1].Valid() && start[2].Valid();
    }
    var k0 := SerializePegs(start);
    r, pushed := Search(k0, Contents(start), n);
    if Contents(start) == Canonical(n) {
      ShortestIsPow2(n, r);
    }
  }

  /** `solve` without its `isSolving` toggle: search from the current board
      and, when a move list is found, play it with `executeMoves`. A found
      list is a shortest solution and ends on the goal board with the
      counter raised by its length; when none is found, no legal move list
      solves the board and nothing changes. */
  method Solve(b: Board) returns (moves: Option<seq<Move>>, solved: bool)
    requires b.Valid()
    modifies b, b.pegs
    ensures b.Valid()
    ensures moves.Some? ==> Solves(old(b.State()), moves.value, b.totalDisks)
    ensures moves.Some? ==> forall ms :: |ms| < |moves.value| ==> !Solves(old(b.State()), ms, b.totalDisks)
    ensures moves.Some? ==> solved && b.State() == [[], [], Tower(b.totalDisks)]
    ensures moves.Some? ==> b.moveCount == old(b.moveCount) + |moves.value|
    ensures moves.None? ==> forall ms :: !Solves(old(b.State()), ms, b.totalDisks)
    ensures moves.None? ==> b.State() == old(b.State()) && b.moveCount == old(b.moveCount)
    ensures old(b.State()) == Canonical(b.totalDisks) ==> moves.Some? && |moves.value| == Pow2(b.totalDisks) - 1
  {
    ghost var log;
    moves, log := FindMoveSequence(b.pegs, b.totalDisks);
    assert Contents(b.pegs) == b.State() == old(b.State());
    solved := false;
    if moves.Some? {
      ExecPlaysLegalLists(b.State(), moves.value);
      var applied;
      applied, solved := b.ExecuteMoves(moves.value);
    }
  }
}
