# Tower of Hanoi: pegs, moves and the breadth-first solver

This project models the core of a browser Tower-of-Hanoi game (`script.js`)
and proves properties of that model. The core has four parts:

- **`PegStack`**: one peg, a linked stack of disk sizes. `push` refuses a disk
  that is not smaller than the top (`Stack`, lines 15-79). The node chain
  reachable from `tail` is the field `disks` (top first), and `_size` is the
  field `count`.
- **`Hanoi`**: the three-peg board.
  - `Config` and `Move` are the board as a value.
  - `Legal` is the move rule. `Transfer` is the pop / try-push /
    restore-on-refusal pattern, written on values.
  - `Replay` plays a move list in which every move must be legal. `Exec` is
    the move loop of `executeMoves`.
  - The `Board` class is the game's global state: its three peg objects,
    `totalDisks` and `moveCount`. Its methods are `initializePegs`, the shared
    move body `Shift`, the player's move `AttemptMove`, the win test
    `IsSolved`, and `executeMoves`.
  - `ClickAsWritten` is the move of the click handler as written, which is
    also the drop handler's move, including the move from an emptied source
    peg (see Findings).
- **`StateKey`**: `serializePegs` / `deserializePegs`, the state keys of the
  search. A key is a sequence of symbols `Num(n) | Comma | Bar`. `Join` and
  `Split` follow JavaScript's `join` / `split`, including the one empty piece
  that `split` returns for an empty string.
- **`Bfs`** and **`Solver`**: `generateMoves` and the breadth-first search
  `findMoveSequence` over state keys, plus `solve`, which runs the search and
  then plays the moves.
  - `Bfs` holds the invariants of the search as named predicates (`Frontier`,
    `Expanding`) and the lemmas that carry them from one step to the next.
    The inner `forEach` is the function `Offer`.
  - `Solver` holds the methods that do the work.
  - Termination is proved with a finite pool of keys: the keys of every
    three-peg board of size-ordered pegs holding the start board's disks.
    The pool is finite because each such disk is smaller than one more than
    the start board's largest disk (`Bfs.PoolExists`).
  - The search keeps a ghost log of every entry it enqueues, so its contract
    can speak of the entries it enqueued.
- **`Towers`**: the classical bound, used to pin down what the search returns
  from the starting setup. The recursive solution `Recursive` is an
  independent reference: it solves the setup in 2^n - 1 legal moves, and no
  legal list is shorter.

`Stack` and `Board` are classes because the source updates their fields in
place. The search itself is proved on values (keys and configurations), and
the heap steps that read the queue's keys (`deserializePegs`, the stack's
`size`) and the start key (`serializePegs`, lines 141-142) are methods on real
`Stack` objects. The successor key (line 166) is `Serialize` of the board that
`Transfer` returns, on values (see the clone line under "Left out"). `totalDisks`, a constant 8 in the source, is a
parameter `n` throughout.

The main results:

- **Search**: a returned move list is legal and ends with every disk on
  peg 2. No shorter legal list does that. An already solved board gives
  `Some([])`. `None` means no legal move list solves the board. Every
  enqueued entry's moves lead to its key, no key is enqueued twice, and the
  result is the move list of one enqueued entry. From the starting setup the
  search returns `Some` list of exactly 2^n - 1 moves.
- **Keys**: the state key is injective, and `deserializePegs` rebuilds exactly
  the size-ordered pegs that `serializePegs` wrote.
- **Moves**: `generateMoves` returns exactly the legal moves, in `from`-then-`to`
  order. A refused move changes nothing. A successful one counts one move and
  keeps the disks.
- **Solve**: `solve` started from a valid board that has a solution ends on
  the goal board. From the starting setup it always finds a list, of 2^n - 1
  moves.
- **Click**: the click handler moves the disk 0 onto the board when the
  selected peg has been emptied by a reset, and the drop handler does the
  same with a stale drag source (see Findings).

## Model

| member | source | states |
|---|---|---|
| `PegStack.Stack.constructor` | script.js:16-19 | a new stack is an empty, valid peg |
| `PegStack.Stack.Push` | script.js:26-34 | the push succeeds exactly when the peg is empty or the disk is smaller than the top; on success the disk is on top and the counter grows by one, otherwise nothing changes; the peg stays size-ordered |
| `PegStack.Stack.Pop` | script.js:40-46 | returns what `peek` showed before (`None` on an empty peg, which is left unchanged); otherwise removes exactly the top disk and decrements the counter |
| `PegStack.Stack.Peek` | script.js:52-54 | `None` exactly on an empty peg, otherwise the top disk |
| `PegStack.Stack.Size` | script.js:60-62 | the counter equals the number of disks on the chain |
| `PegStack.Stack.IsEmpty` | script.js:68-70 | true exactly when the chain is empty, i.e. when the size is 0 |
| `PegStack.Stack.Clear` | script.js:75-78 | the peg is empty and valid afterwards |
| `PegStack.Pushed` | script.js:28-31 | the disks after `push`: a size-ordered peg stays size-ordered, and the peg grows (by the disk, on top) exactly when the push is allowed |
| `PegStack.TopIsSmallest` | script.js:28 | on a peg built by guarded pushes, the top disk is smaller than every disk below it |
| `Hanoi.Span` | script.js:92 | the disks pushed by the setup loop, `lo` up to `hi`, listed top first: element `i` is `lo + i`, and the list is size-ordered |
| `Hanoi.Board.constructor` | script.js:82-84 | three fresh, distinct pegs in the starting setup with the counter at 0 |
| `Hanoi.Board.InitializePegs` | script.js:90-93 | after clearing and pushing `totalDisks` down to 1 onto peg 0, the board is exactly `[1..n], [], []`, valid, and the counter is 0 |
| `Hanoi.CanonicalIsGame` | script.js:90-93 | the setup holds disks 1..n once each on size-ordered pegs, and is not already solved when n > 0 |
| `Hanoi.Transfer` | script.js:185-191 | between two different pegs, popping and re-pushing succeeds exactly when the move is legal; the board keeps three pegs |
| `Hanoi.TransferMoves` | script.js:185-187 | a legal move puts the source's top disk on top of the destination and touches no other peg |
| `Hanoi.TransferSelf` | script.js:185-187 | popping a disk and pushing it onto the same peg always succeeds and leaves the board unchanged |
| `Hanoi.TransferKeeps` | script.js:185-191 | a successful pop-then-push keeps every peg size-ordered and keeps the multiset of disks |
| `Hanoi.Board.Shift` | script.js:185-191 | the shared move body: it succeeds exactly when the value-level transfer does; the new board is the transfer's result and the counter is one higher, or the board and counter are unchanged after the disk is restored |
| `Hanoi.Board.AttemptMove` | script.js:270-287 | a player's move succeeds exactly when it is legal (same peg, empty source and a larger disk onto a smaller one are refused); success moves the disk and counts one move, refusal changes nothing; the game invariant is kept |
| `Hanoi.ClickAsWritten` | script.js:300-311 | the move of the click handler as written (the move of the drop handler, lines 274-284, is the same): when the selected peg still holds a disk on a size-ordered board, the click is the legal move or is refused with no change; when it is empty, `pop` gives `null` and the disk 0 is pushed |
| `Hanoi.EmptyClickBreaksGame` | script.js:305-307 | from an empty selected peg the move is not legal, yet the handler as written counts it and leaves a board that no longer holds exactly disks 1..n |
| `Hanoi.ClickAfterReset` | script.js:290-316 | selecting peg 1, pressing Reset and clicking peg 2 turns the starting setup into `[1..n], [], [0]` with one move counted, which is not a game board |
| `Hanoi.DropAfterSolve` | script.js:270-287 | a drop on peg 1 with a stale source peg 0 that the solve has emptied turns `[], [], [1..n]` into `[], [0], [1..n]` with one move counted, which is not a game board |
| `Hanoi.Board.IsSolved` | script.js:334 | "peg 2 holds `totalDisks` disks" holds exactly when the board is `[], [], [1..n]` |
| `Hanoi.SolvedIsGoal` | script.js:148 | on a board holding disks 1..n once each on size-ordered pegs, the size test on peg 2 is equivalent to reaching the goal board |
| `Hanoi.Board.PlayMoves` | script.js:179-193 | the move loop leaves the board and the count that `Exec` gives: it stops at an empty source or a refused push, and the counter rises by the number of moves made |
| `Hanoi.Exec` | script.js:179-193 | a definition without a contract of its own: the board and count after playing moves until an empty source or a refused push; `Hanoi.ExecKeeps` and `Hanoi.ExecPlaysLegalLists` state its properties |
| `Hanoi.Board.ExecuteMoves` | script.js:178-199 | the move loop followed by the win test: same final board and count as `Exec`, the invariant kept, and `solved` exactly when the goal board is reached; a legal list is played to its end, and one that solves the board gives `solved` |
| `Hanoi.ExecKeeps` | script.js:179-193 | playing moves keeps the pegs size-ordered and keeps the disks |
| `Hanoi.ExecPlaysLegalLists` | script.js:179-193 | a legal move list is played to its end, ending on the board that legal play reaches, with one count per move |
| `Hanoi.ReplayKeeps` | script.js:164-169 | legal play from a size-ordered board keeps it size-ordered with the same disks |
| `StateKey.Serialize` | script.js:100-111 | a definition without a contract of its own: the key of a board, pegs joined by `Bar` and disks by `Comma`; `StateKey.SerializeInjective` and `StateKey.ParseSerialize` state its properties |
| `StateKey.Deserialize` | script.js:113-121 | a definition without a contract of its own: split at `Bar`, and per piece push the numbers bottom first onto an empty peg; `StateKey.DeserializeStacks` and `StateKey.RoundTrip` state its properties |
| `StateKey.Split` | script.js:114 | `split` returns at least one piece, and no piece holds the separator |
| `StateKey.SplitJoin` | script.js:109-114 | splitting a join of separator-free pieces gives the pieces back |
| `StateKey.JoinSplit` | script.js:109-114 | joining the pieces of a split gives back the string, for every string |
| `StateKey.ParseSerialize` | script.js:100-117 | parsing the key of a board gives back every peg's disk list |
| `StateKey.SerializeInjective` | script.js:100-111 | two boards have the same key exactly when they are the same board |
| `StateKey.PushAllOrdered` | script.js:117-118 | pushing any disks onto a size-ordered peg keeps it size-ordered |
| `StateKey.RebuildOrdered` | script.js:117-118 | pushing a size-ordered peg's disks bottom first (`reverse` then `push`) accepts every push and rebuilds the same peg |
| `StateKey.DeserializeStacks` | script.js:113-121 | a key rebuilds one size-ordered peg per bar-separated piece, whatever the key |
| `StateKey.RoundTrip` | script.js:100-121 | deserializing the key of size-ordered pegs gives back the same pegs |
| `StateKey.PegDisks` | script.js:103-108 | the walk from `tail` along `next` collects the peg's disks, top first |
| `StateKey.SerializePegs` | script.js:100-111 | the key built from real stacks is the key of their contents |
| `StateKey.BuildPeg` | script.js:114-120 | the callback builds a fresh, valid stack holding the disks that pushing the piece's numbers bottom first yields |
| `StateKey.BuildPegs` | script.js:114-121 | one fresh, valid, distinct stack per piece, each rebuilt from its own piece |
| `StateKey.DeserializePegs` | script.js:113-121 | one fresh, valid, distinct stack per bar-separated piece, whose contents are the deserialized board |
| `Bfs.PoolExists` | script.js:144-173 | the boards reachable from a size-ordered board have their keys in a finite set, which bounds the visited set |
| `Bfs.Start` | script.js:141-142 | the search invariant holds for the queue and visited set seeded with the start key |
| `Bfs.Dequeue` | script.js:145-146 | the head's moves are legal and lead to a size-ordered board that its key rebuilds, and no shorter move list solves the puzzle |
| `Bfs.Expand` | script.js:148-150 | a head that fails the win test starts an expansion with the rest of the queue |
| `Bfs.Reachable` | script.js:146 | a board reached by legal moves is size-ordered, keeps the start's disks, and is rebuilt from its key |
| `Bfs.Reached` | script.js:150-169 | once everything below a level is expanded, every board at most that many moves away has been visited |
| `Bfs.Unseen` | script.js:167-169 | a key not yet visited is at least one level deeper than the head, so its new entry is a shortest way to it |
| `Bfs.QueueSnoc` | script.js:169 | appending an entry one level deeper whose moves are a shortest way to its key keeps the queue's per-entry facts |
| `Bfs.Enqueue` | script.js:164-169 | enqueuing the board behind an unvisited legal move keeps the expansion invariant |
| `Bfs.Visit` | script.js:164-171 | a definition without a contract of its own: one `forEach` callback on values; `Bfs.VisitKeeps` and `Bfs.VisitLogs` state its properties |
| `Bfs.Offer` | script.js:151-172 | a definition without a contract of its own: the callbacks for the possible moves, in order; the `Bfs.Offer...` lemmas state its properties |
| `Bfs.VisitKeeps` | script.js:164-171 | one `forEach` callback keeps the expansion invariant |
| `Bfs.OfferKeeps` | script.js:151-172 | the whole `forEach` over the possible moves keeps the expansion invariant |
| `Bfs.OfferCovers` | script.js:151-172 | after the `forEach`, the key behind every legal move is visited, nothing visited is forgotten, and the queue changes only when something is added |
| `Bfs.OfferShrinks` | script.js:167-168 | every key the `forEach` adds comes from the finite pool, so the unvisited part of the pool shrinks whenever something is added |
| `Bfs.VisitLogs` | script.js:167-169 | one callback keeps the log listing exactly the visited keys, each once |
| `Bfs.OfferLogs` | script.js:167-169 | the log of enqueued keys lists exactly the visited keys, each once |
| `Bfs.OfferAppends` | script.js:151-172 | the `forEach` appends the same entries, in the same order, to the queue and to the log |
| `Bfs.OfferTracks` | script.js:164-169 | every entry the `forEach` logs carries moves that lead from the start to its key |
| `Bfs.LogStart` | script.js:141-142 | the first queue entry and the visited set match a log holding only the start entry |
| `Bfs.LogStep` | script.js:145-172 | taking the head off the queue and offering its successors keeps the log: start entry first, moves leading to keys, no repeated key, visited keys logged, queue the log's tail |
| `Bfs.NextLevel` | script.js:144-169 | after a head is expanded, every board closer than the next head's level has been expanded |
| `Bfs.Expanded` | script.js:150-172 | when all successors of the head are visited, the head joins the expanded keys and the search invariant holds for the next head |
| `Bfs.ShorterUnsolved` | script.js:148 | no move list shorter than an expanded level solves the puzzle |
| `Bfs.AllExpanded` | script.js:144-174 | when the expanded keys are closed under legal moves, every reachable board was expanded |
| `Bfs.Exhausted` | script.js:144-174 | an empty queue means no legal move list solves the puzzle |
| `Solver.GenerateMoves` | script.js:124-137 | a move is in the list exactly when it is legal, and the list is sorted by `from` then `to` with no repeats |
| `Solver.EnqueueSuccessors` | script.js:151-172 | the `forEach` loop leaves the queue, visited set and log that `Offer` describes |
| `Solver.LoadBoard` | script.js:146-148 | the rebuilt stacks hold the deserialized board, and the size test on peg 2 is the win test |
| `Solver.Search` | script.js:141-174 | `Some` is a legal solving list and no shorter list solves; `Some([])` when the start is solved; `None` only when no legal list solves; the returned log starts with the start entry, every logged entry's moves lead to its key, no key is logged twice, and the result is the moves of a logged entry |
| `Solver.FindMoveSequence` | script.js:140-175 | the same results about the contents of the start stacks, which are not modified; from the starting setup the result is `Some` list of 2^n - 1 moves |
| `Solver.Solve` | script.js:206-217 | a found list is shortest, is played in full to the goal board and raises the counter by its length; when none is found, no legal list solves the board and nothing changes; from the starting setup a list of 2^n - 1 moves is always found |
| `Towers.RecursiveLength` | script.js:140-175 | independent reference, no counterpart in the source, fixing the length of the search's result: the recursive reference solution for `k` disks has 2^k - 1 moves |
| `Towers.RecursivePlays` | script.js:140-175 | independent reference, no counterpart in the source, fixing the length of the search's result: the recursive solution is legal move by move and carries the tower `1..k` from the top of one peg to another over larger disks, leaving the rest of the board as it was |
| `Towers.RecursiveSolves` | script.js:140-175 | independent reference, no counterpart in the source, fixing the length of the search's result: from the starting setup the recursive solution is a legal list of 2^n - 1 moves that ends on the goal board |
| `Towers.SmallerWait` | script.js:140-175 | independent reference, no counterpart in the source, fixing the length of the search's result: when disk `k` moves legally, disks 1..k-1 sit on the third peg, before and after the move |
| `Towers.AtLeast` | script.js:140-175 | independent reference, no counterpart in the source, fixing the length of the search's result: moving the disks 1..k from one peg onto another by legal moves takes at least 2^k - 1 moves |
| `Towers.NoShorter` | script.js:140-175 | independent reference, no counterpart in the source, fixing the length of the search's result: no legal list shorter than 2^n - 1 moves solves the starting setup |
| `Towers.ShortestIsPow2` | script.js:140-175 | a result with the search's contract, from the starting setup, is `Some` list of exactly 2^n - 1 moves |

## Left out

- Rendering (lines 225-251), peg highlighting (318-330), alerts, and the button text are not modelled. The event wiring (345-358) is left out too, because it is DOM glue.
- The 300 ms `setTimeout` between moves (line 181) is not modelled, and neither is the `isSolving` flag that can cancel `executeMoves` mid-way (179, 195, 207-221). `Hanoi.Board.ExecuteMoves` models a call that is never cancelled.
- `Hanoi.Board.ExecuteMoves` keeps playing after a move that fills peg 2. In the source, `render` (line 188) calls `checkWin`, which clears `isSolving` (line 336) once peg 2 holds every disk, so the loop stops there. For a list from the solver this changes nothing: a shortest solving list reaches the goal board only with its last move. The `solved` result stands for the test at line 197. In the source, after a move that fills peg 2, `isSolving` is already false and line 195 returns, so line 197 is reached with peg 2 full only when the list was empty. `solved` is therefore not the source's alert after a completed solve.
- `dragStart` (258-268) reads the dragged disk and the peg from the DOM with `parseInt`. `Hanoi.Board.AttemptMove` models drop and click moves from the point where a source and a target peg are known.
- `push` coerces its argument with `Number` (line 27). Disks are modelled as `nat`. `executeMoves` (line 183) pops only from a non-empty peg, and so does the clone step of `findMoveSequence` (`newPegs[from].pop()`, line 164), because `generateMoves` offers a move only from a non-empty peg (line 127); so `Transfer` requires a non-empty source.
- `Hanoi.Board.AttemptMove` models the click and drop moves as intended: it refuses a move from an empty peg. Neither handler checks this. `selectedPeg` survives a reset (line 342) and an automatic solve. `sourcePegIndex` is cleared only at lines 275 and 285, so a drag released away from every peg leaves it set, and a drag started while the solver runs does not replace it (line 259). `Hanoi.ClickAsWritten` models the move of both handlers as written, with `Number(null)` read as the disk 0 (see Findings).
- The linked `Node` chain is modelled as the sequence `disks`. Nodes in the source are never shared or changed after creation.
- The decimal text of the key is modelled as one `Num` symbol per disk. `StateKey.ToNumber` reads any other piece as 0, where `Number` would give 0 or `NaN`. Only keys written by `serializePegs` are ever read back.
- `trim()` (line 116) is the identity on keys, because keys contain no white space.
- `StateKey.SerializePegs` and `StateKey.PegDisks` walk an abstract chain, the `disks` sequence. They do not model reading `current.data` over the `next` links on the heap.
- The per-move clone in `findMoveSequence` (152-165) pops and pushes on new `Stack` objects. The model takes that step on values, with `Transfer`. `StateKey.RebuildOrdered` shows why the clone is exact.
- `Solver.LoadBoard` requires a key with three pieces. With fewer, `currentPegs[2]` would throw. Every key in the queue is written from a three-peg board.
- `Solver.FindMoveSequence` requires three valid stacks, which is what the game always passes it.
- `Solver.Search`, `Solver.FindMoveSequence` and `Solver.Solve`: the contracts prove the returned list is shortest. It does not state which of several equally short lists the search returns; that choice follows from the `from`-then-`to` order of `generateMoves`.
- Number widths are not modelled (`moveCount` and the disk sizes are unbounded), because the 8-disk game stays far from any limit.
- The search applies the win test when an entry is taken off the queue (line 148), not when a successor is enqueued. The model follows that order. The returned list is still a shortest one, and a start board that is already solved gives `[]`.

## Findings

| source | as written | input that shows it | evidently intended | confidence | as-written member | corrected member |
|---|---|---|---|---|---|---|
| script.js:292-316 | the click handler pops the selected peg without checking that it still holds a disk; `selectedPeg` is not cleared by `resetGame` (line 342) or by an automatic solve; on an empty peg `pop` gives `null`, `push(null)` stores the disk 0, and the move is counted | click peg 0, click peg 1 (disk 1 moves), click peg 1 (selected), click Reset, click peg 2: the board becomes `[1..8], [], [0]` with one move counted | a click from an empty selected peg is refused and changes nothing, as `executeMoves` (line 183) does and as `attemptMove` is designed to | high, not executed | `Hanoi.ClickAsWritten` with `Hanoi.EmptyClickBreaksGame` and `Hanoi.ClickAfterReset` | `Hanoi.Board.AttemptMove` |
| script.js:270-287 | the drop handler pops `sourcePegIndex` without checking that it still holds a disk; the index is cleared only at lines 275 and 285, and `dragStart` returns at line 259 while the solver runs without replacing it; on an empty peg `pop` gives `null`, `push(null)` stores the disk 0, and the move is counted | drag the top disk of peg 0 and release it away from the pegs, press Solve, start dragging any disk before the last move, drop it on peg 1 after the solve ends: the board becomes `[], [0], [1..8]` with one extra move counted (this needs the browser to keep the drag alive after `render` replaces the disk elements) | a drop from an empty source peg is refused and changes nothing | medium, not executed | `Hanoi.ClickAsWritten` with `Hanoi.DropAfterSolve` | `Hanoi.Board.AttemptMove` |
