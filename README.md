# backtrack-battles: the game state, the work stack and the solver, in Dafny

backtrack-battles is a two-player token race on an N x N board (N >= 3).
Player 1 starts with one token on every non-corner cell of the top row, and
its tokens only move down. Player 2 starts with one token on every non-corner
cell of the left column, and its tokens only move right. A move is a step into
the empty cell ahead, or a jump over an adjacent opposing token into the empty
cell beyond it. A side has won when all its tokens stand on its target line:
the last row for Player 1, the last column for Player 2.

The solver decides whether the side to move has a forced win. It explores the
game tree depth first and memoizes a verdict (good or bad, and the winning
move) for every state it settles. It has two forms: a recursive one
(`isGoodState`), and one driven by an explicit linked-list stack of frames
(`processNextFrame`, called by `solve` until the stack is empty).

The model has these files:

- `Wrappers.dfy`: `Option` and `Result`.
- `GameState.dfy` (module `GameState`): the state as a value, the move
  rules, move generation, `applyMove`, the win tests, equality and the hash.
  The source copies a state and changes the copy through private helpers.
  The model writes this as a function from the old state to the new one
  (`Step`).
- `Outcome.dfy` (module `Outcome`): what the solver is meant to compute,
  defined independently of the search. `Good` is the game-theoretic verdict.
  `Expected` is the memo entry the solver should write: the first winning
  move in generation order.
- `Stack.dfy` (module `Stacks`): the linked-list stack, as a class over heap
  nodes.
- `Search.dfy` (module `Search`): one step of the explicit-stack search on
  values (`SearchStep`). It holds the invariant that the frames, the memo
  table and the best-move record keep together, with one lemma per kind of
  step.
- `GameSolver.dfy` (module `GameSolver`): the solver as a class. Each method
  is proved against `Outcome` and `Search`.
- `ThreeByThree.dfy` (module `ThreeByThree`): the 3 x 3 board played out by
  hand. This is the input that shows the finding below.

Main results:

- Every memo entry the solver writes is the true verdict (`CacheSound`).
- Each `processNextFrame` performs exactly one `SearchStep` and decreases a
  measure of the work left, so `solve` terminates.
- The branch of the evaluation loop that pushes an unexplored successor can
  never run.
- Once the stack is empty, the root's own memo entry is its true verdict.

Where the description of the program and its code disagree, the model follows
the code. `solve` and `hasWinningStrategy` are described as answering whether
the root is a forced win, and `getBestMove` as returning the root's winning
move. The code instead reads, or returns, `currentBestMove`. Its state part
is the root, or the last state recorded as good since; a memo hit replaces
only its move part. It is not necessarily the root. The Findings section
covers all three.

## Model

| member | source | states |
|---|---|---|
| GameState.NewGameState | backtrack-battles/GameState.cpp:5-30 | Below size 3, fails with InvalidSize. Otherwise returns the initial board, which is valid and has one token per lane. |
| GameState.InitialStateValid | backtrack-battles/GameState.cpp:13-29 | Player 1 holds exactly the cells (0, c) and Player 2 exactly the cells (r, 0), for 1 <= c, r <= size-2. Every other cell is empty and Player 1 moves first. The board is valid. |
| GameState.CornersEmpty | backtrack-battles/GameState.cpp:242-245 | On a valid board the four corners are empty and hold no token. |
| GameState.IsInBounds | backtrack-battles/GameState.cpp:308-316 | A cell is on the board exactly when both coordinates lie in [0, size). |
| GameState.IsValidMove | backtrack-battles/GameState.cpp:237-285 | A move is valid only when both ends are on the board, the origin is not a corner, the origin holds the mover's mark, the destination is empty, and the move is the mover's one-cell step or its jump over an opposing token. Every other move is rejected. |
| GameState.ValidMoveShape | backtrack-battles/GameState.cpp:237-280 | A valid move starts on a token of the mover. It advances one or two cells along the mover's axis and lands on an empty cell. A two-cell move jumps over an opposing token. |
| GameState.ValidMoveAvoidsCorners | backtrack-battles/GameState.cpp:242-245 | A valid move neither starts nor ends on a corner. |
| GameState.NoMoveIsNeverValid | backtrack-battles/GameState.h:27-28 | The default "no move" (-1, -1, -1, -1) is never a valid move. |
| GameState.TokenOrder | backtrack-battles/GameState.cpp:74 | The order in which the token set is visited lists every token exactly once. |
| GameState.TokenMovesAreValidMoves | backtrack-battles/GameState.cpp:74-102 | The moves generated for one token are exactly the valid moves that start on that token. |
| GameState.MovesOfToken | backtrack-battles/GameState.cpp:73-103 | The loop body for one token, in either player's branch, produces that token's step and then its jump. For a token of the mover on a valid board, these are exactly the valid moves that start on it. |
| GameState.MovesFromTokensSoundComplete | backtrack-battles/GameState.cpp:69-107 | Concatenating the per-token moves over all the mover's tokens yields exactly the valid moves. |
| GameState.MovesFromTokensMember | backtrack-battles/GameState.cpp:69-107 | A single move is generated for the mover's tokens if and only if it is valid. |
| GameState.MoveList | backtrack-battles/GameState.cpp:69-107 | A move is in the generated list if and only if it is valid. |
| GameState.GenerateAllPossibleMoves | backtrack-battles/GameState.cpp:69-107 | The loop over the tokens returns MoveList: exactly the valid moves, in token order. |
| GameState.Step | backtrack-battles/GameState.cpp:287-306 | After moveToken and switchPlayer: the origin is empty and the target holds the mover's mark. Every other cell is unchanged. The mover's token set loses the origin and gains the target, and the opponent's set is unchanged. The turn passes and validity is kept. The distance still to travel drops by the move's length. |
| GameState.StepValid | backtrack-battles/GameState.cpp:287-301 | Moving a token keeps the grid square, keeps the token sets in agreement with the grid, and keeps the tokens in their lanes. |
| GameState.StepKeepsLanes | backtrack-battles/GameState.cpp:287-301 | A move keeps exactly one token of each side per lane. |
| GameState.StepDistance | backtrack-battles/GameState.cpp:287-301 | Every move shortens the total distance the tokens still have to travel, by one or two. |
| GameState.SuccessorUnique | backtrack-battles/GameState.cpp:159-162 | The state after a move is determined by the old state and the move. |
| GameState.NextIsStep | backtrack-battles/GameState.cpp:159-162 | The successor described cell by cell is the state that moveToken and switchPlayer build. |
| GameState.ApplyMove | backtrack-battles/GameState.cpp:165-178 | Fails with InvalidMove exactly when the move is not valid. Otherwise returns the new state and leaves the old one untouched. |
| GameState.WonForOnGrid | backtrack-battles/GameState.cpp:132-148 | A side has won if and only if none of its marks on the grid lies off its target line. |
| GameState.WonLeavesNoMoves | backtrack-battles/GameState.cpp:80-101 | A side whose tokens are all on the target line has no move. |
| GameState.IsWinningForPlayer | backtrack-battles/GameState.cpp:132-148 | The loop returns true if and only if every token of the given side is on that side's target line. |
| GameState.IsWinning | backtrack-battles/GameState.cpp:109-130 | The same test, for the side to move. |
| GameState.SameMove | backtrack-battles/GameState.cpp:318-324 | Moves compare equal if and only if all four coordinates agree. |
| GameState.SameState | backtrack-battles/GameState.cpp:60-66 | Comparing grid, turn and token sets is exactly state equality. |
| GameState.MoveToken | backtrack-battles/GameState.cpp:287-301 | The origin ends empty and the destination takes the origin's mark. Every other cell, the size and the turn are unchanged. If the origin holds Player 1's mark, Player 1's set trades the origin for the destination. Otherwise Player 2's set does, even when the origin holds no token. |
| GameState.SwitchPlayer | backtrack-battles/GameState.cpp:303-306 | The turn passes to the other player, and nothing else changes. |
| GameState.GridAndTurnDetermineState | backtrack-battles/GameState.cpp:60-66 | Two valid states with the same grid and turn are equal. So a memo key needs nothing beyond the grid and the turn. |
| GameState.GameStateHash | backtrack-battles/GameState.cpp:329-343 | The loop over the rows and cells computes HashOf(grid, turn), the 64-bit mixing of cell codes followed by the player code. |
| GameState.EqualStatesHashEqual | backtrack-battles/GameState.cpp:329-343 | States that compare equal hash equal, which is the contract the memo table's hashing needs. |
| Outcome.Successor | backtrack-battles/GameSolver.cpp:37-40 | The state a generated move leads to is valid and strictly closer to the end of the game. |
| Outcome.Good | backtrack-battles/GameSolver.cpp:16-56 | The verdict isGoodState computes, by recursion on the distance left: the mover has won, or some valid move leads to a state that is not good. |
| Outcome.GoodByMoveList | backtrack-battles/GameSolver.cpp:16-56 | A state is good if and only if the mover has won or some generated move leads to a state that is not good. |
| Outcome.WonIsGood | backtrack-battles/GameSolver.cpp:17-20 | A state where the mover has already won is good. |
| Outcome.StuckIsBad | backtrack-battles/GameSolver.cpp:29-32 | A state where the mover has not won and has no move is bad. |
| Outcome.FirstWinning | backtrack-battles/GameSolver.cpp:35-49 | The position where the scan over the moves stops lies between its start and the end of the move list. |
| Outcome.FirstWinningSpec | backtrack-battles/GameSolver.cpp:35-49 | Every successor the scan passes over is good. The successor where it stops, if any, is not good. |
| Outcome.FirstWinningAt | backtrack-battles/GameSolver.cpp:42-48 | A scan that breaks at the first successor that is not good stops at FirstWinning. |
| Outcome.Expected | backtrack-battles/GameSolver.cpp:16-54 | The verdict to memoize: good exactly when the state is good. A won state gets no move and a bad state gets no move. Otherwise the move is valid and leads to a state that is not good. |
| Search.StartInv | backtrack-battles/GameSolver.cpp:130-133 | The constructor's single unexpanded root frame, empty memo table and root best-move record satisfy the search invariant. |
| Search.TopIsRoot | backtrack-battles/GameSolver.cpp:59-128 | The top frame holds the root exactly when it is the only frame. A stack deeper than one frame means the root has a move. |
| Search.PopEvaluatedKeeps | backtrack-battles/GameSolver.cpp:65-68 | Popping an evaluated frame keeps the invariant and decreases the work left. |
| Search.PopCachedKeeps | backtrack-battles/GameSolver.cpp:71-76 | Popping a frame whose state is memoized keeps the invariant, with the best move's second part replaced by the memoized move. It decreases the work left. |
| Search.WinKeeps | backtrack-battles/GameSolver.cpp:80-85 | Memoizing a won state as good with no move, recording it as best and popping it keeps the invariant and decreases the work left. |
| Search.Expand | backtrack-battles/GameSolver.cpp:88-93 | Expanding leaves every frame below the top alone and adds exactly one frame. |
| Search.ExpandWork | backtrack-battles/GameSolver.cpp:88-93 | Expanding an unevaluated top frame keeps every frame well formed and strictly decreases the work left. |
| Search.NewFrame | backtrack-battles/GameSolver.cpp:163-165 | The StackFrame constructor: the frame holds the state and its generated moves, with index 0 and not evaluated. It is well formed and carries the whole cost of its state. |
| Search.ExpandKeeps | backtrack-battles/GameSolver.cpp:88-93 | Advancing the top frame's move index and pushing the successor's frame keeps the invariant and decreases the work left. |
| Search.ScanResult | backtrack-battles/GameSolver.cpp:96-118 | The evaluation scan stops at the first memoized successor that is not good and yields Expected. If it finds none, it yields Expected's bad verdict with no move. |
| Search.MarkEvaluated | backtrack-battles/GameSolver.cpp:126 | Marking the top frame evaluated leaves every frame below it alone. |
| Search.EvaluateKeeps | backtrack-battles/GameSolver.cpp:95-127 | Memoizing the top state's true verdict, recording it as best when good and marking the frame evaluated keeps the invariant and decreases the work left. |
| Search.SearchStep | backtrack-battles/GameSolver.cpp:59-128 | One step of processNextFrame, in its five branches: pop an evaluated frame, pop on a memo hit (replacing only the recorded move), memoize a won state, expand the next move, or evaluate. It grows the stack by at most one frame and never removes or changes a memo entry. The recorded state is kept or becomes the top frame's state. |
| Search.SearchStepKeeps | backtrack-battles/GameSolver.cpp:59-128 | Any step of processNextFrame on a non-empty stack keeps the invariant and strictly decreases the work left. |
| Search.FinishedVerdict | backtrack-battles/GameSolver.cpp:135-146 | Once the stack is empty the root is memoized with its true verdict. The best-move state's entry is good if and only if the root is good or has any move. The record is the root if and only if the root is good or has no move. When the root is good, the record is the root with its winning move. |
| Search.VerdictOnceFinished | backtrack-battles/GameSolver.cpp:148-161 | The same conclusions, for any solver state whose stack is empty. |
| Stacks.Node.constructor | backtrack-battles/Stack.cpp:27-30 | A node holds the given element and the given next node. |
| Stacks.Stack.constructor | backtrack-battles/Stack.cpp:35-37 | A new stack is empty. |
| Stacks.Stack.IsEmpty | backtrack-battles/Stack.cpp:39-41 | True exactly when the stack holds nothing. |
| Stacks.Stack.Push | backtrack-battles/Stack.cpp:51-56 | The element becomes the new top, on a fresh node. Everything below is unchanged. |
| Stacks.Stack.Pop | backtrack-battles/Stack.cpp:58-67 | On an empty stack, the out_of_range error. Otherwise it returns the top element and leaves the stack as it was before that push. |
| Stacks.Stack.Top | backtrack-battles/Stack.cpp:69-74 | On an empty stack, the out_of_range error. Otherwise it returns the top element and changes nothing. |
| Stacks.Stack.ReplaceTop | backtrack-battles/Stack.cpp:69-74 | A write through the reference top() returns changes the top element only. |
| Stacks.PushThenPop | backtrack-battles/Stack.cpp:51-67 | Last in, first out: a pop right after a push returns the pushed element and restores the contents. |
| GameSolver.Solver.constructor | backtrack-battles/GameSolver.cpp:130-133 | One unexpanded frame for the initial state, an empty memo table, and the initial state with the sentinel move as best. The solver invariant holds. |
| GameSolver.Solver.IsGoodState | backtrack-battles/GameSolver.cpp:6-57 | Returns the state's true verdict and memoizes it. Existing entries are kept and every entry is Expected. The best-move record stays put or moves to a memoized good state. |
| GameSolver.Solver.ProcessNextFrame | backtrack-battles/GameSolver.cpp:59-128 | On an empty stack, returns false and changes nothing. Otherwise it performs exactly SearchStep on (stack, memo table, best move), keeps the invariant and decreases the work left. |
| GameSolver.Solver.ExpandTop | backtrack-battles/GameSolver.cpp:88-93 | The top frame's index advances and the successor's frame, with its generated moves, is pushed: the stack becomes Expand of the old one. |
| GameSolver.Solver.StoreVerdict | backtrack-battles/GameSolver.cpp:120-127 | The top state's entry becomes Expected. The best move becomes that state with its move when it is good. The frame is marked evaluated. |
| GameSolver.Solver.EvaluateFrame | backtrack-battles/GameSolver.cpp:96-118 | The scan over an expanded frame's moves returns exactly Expected for the frame's state. |
| GameSolver.Solver.Run | backtrack-battles/GameSolver.cpp:138-142 | The loop terminates, with the stack empty and the invariant kept. |
| GameSolver.Solver.Solve | backtrack-battles/GameSolver.cpp:135-146 | As written: the root's entry holds its true verdict. The result is true if and only if the root is good or has any move at all, so it is not the root's verdict. |
| GameSolver.Solver.SolveForInitialState | backtrack-battles/GameSolver.cpp:135-146 | Corrected solve: the result is exactly whether the root is good. |
| GameSolver.Solver.GetBestMove | backtrack-battles/GameSolver.cpp:148-151 | As written: the record is the root or a memoized good state. Once the search is over, it is the root exactly when the root is good or has no move at all, and when the root is good it is the root with its first winning move. |
| GameSolver.Solver.RootBestMove | backtrack-battles/GameSolver.cpp:148-151 | Corrected getBestMove: the root with its own memoized move. A move it reports is a valid move of a good root that leaves the opponent in a state that is not good. After the search it is the root's first winning move, or the sentinel when the root is not good. |
| GameSolver.Solver.HasWinningStrategy | backtrack-battles/GameSolver.cpp:153-161 | As written: false on an empty memo table. The out_of_range error happens only mid-search with the root as the record. After the search it answers whether the root is good or has any move. |
| GameSolver.Solver.RootHasWinningStrategy | backtrack-battles/GameSolver.cpp:153-161 | Corrected: false on an empty memo table. Any other answer is the root's true verdict, and after the search it is always given. |
| ThreeByThree.AfterJumpLost | backtrack-battles/GameState.cpp:251-264 | On the 3 x 3 board, Player 1 at (1, 1) to move against Player 2 at (1, 2) has only the step down, after which Player 2 has won: the state is bad. |
| ThreeByThree.AfterOpeningWon | backtrack-battles/GameState.cpp:265-278 | Player 2 at (1, 0) to move against Player 1 at (1, 1) wins by the jump to (1, 2). |
| ThreeByThree.OpeningLost | backtrack-battles/GameState.cpp:237-280 | Player 1 at (0, 1) to move against Player 2 at (1, 0) has a move, and every move loses. |
| ThreeByThree.InitialLost | backtrack-battles/GameState.cpp:5-30 | The initial 3 x 3 board is valid, has a move, and is lost for the side to move. |
| ThreeByThree.SolveClaimsLostBoard | backtrack-battles/GameSolver.cpp:145 | solve as written returns true on the initial 3 x 3 board although it is lost. |
| ThreeByThree.SolveForInitialStateOnLostBoard | backtrack-battles/GameSolver.cpp:135-146 | The corrected solve returns false on the same board. |
| ThreeByThree.HasWinningStrategyOnLostBoard | backtrack-battles/GameSolver.cpp:160 | After the search, hasWinningStrategy as written answers true and the root's own entry answers false. |
| ThreeByThree.BestMoveOnLostBoard | backtrack-battles/GameSolver.cpp:148-151 | After the search, getBestMove as written returns a state other than the root. The corrected query returns the root with the sentinel move. |

## Left out

- Console output is not modelled: toString, the messages written to the error stream in the constructor, in applyMove and in isGoodState, and the menu and game loop (Game.h, Menu.h, main.cpp).
- The size < 3 and invalid-move exceptions are modelled as `Failure` results.
- The other `applyMove` overload, which takes four integers, behaves exactly like the `Move` overload, which is modelled.
- `getCurrentPlayer`, `getSize` and `getCellStatus` are field reads (`s.currentPlayer`, `s.size`, `CellAt`).
- Copy construction, assignment and the destructor: states are values in the model, so there is nothing to copy or free.
- The stack's destructor and its `delete` calls: memory is not reclaimed in the model.
- Stacks.Stack.Pop: returns the top element by value. The source returns a reference to a local that has already been destroyed, and no caller uses the returned value.
- GameState.TokenOrder: the unordered sets of tokens are iterated in some unspecified order. The model fixes ascending (row, col) order. The verdicts do not depend on the order; which winning move is recorded does.
- GameState.GameStateHash: `size_t` is modelled as 64 bits, and the cell and player codes as the enumerators' underlying values. Hash collisions are not modelled: the memo table is a map keyed on the state value.
- GameState.GridAndTurnDetermineState: the hash covers only the grid and the turn. The model shows this loses nothing for valid states, but does not model the hash table's buckets.
- The unexplored-successor branch of the evaluation loop (GameSolver.cpp:112-117) is proved unreachable. Every successor of an expanded frame is already memoized, and the model asserts this instead of pushing a frame.
- GameSolver.Solver.IsGoodState: the contract does not say which move a memo hit leaves in the second part of currentBestMove. It only says the state part stays put or moves to a memoized good state.
- Integer overflow of the coordinates and of the move index is not modelled: integers are unbounded, and the board sizes the program handles are small.
- The unit tests (GameSolverTests.cpp) are not part of this model.

## Findings

| source | as written | input that shows it | evidently intended | confidence | as-written member | corrected member |
|---|---|---|---|---|---|---|
| backtrack-battles/GameSolver.cpp:145 | solve returns the memo entry of currentBestMove.first. That is the root, or the last state recorded as good since; a memo hit (line 73) replaces only the move. After the search it is the root exactly when the root is good or has no move at all. So the result is "root good or root has any move". | The initial 3 x 3 board. Player 1 steps (0,1)→(1,1), Player 2 jumps (1,0)→(1,2), and Player 1's one step leaves Player 2 home. The root is lost, but solve returns true. | Return the root's own verdict, `memoizationCache[initialState].isGood`. | not executed | ThreeByThree.SolveClaimsLostBoard | GameSolver.Solver.SolveForInitialState |
| backtrack-battles/GameSolver.cpp:160 | hasWinningStrategy reads the same entry, so after solve it also answers "root good or root has any move". | The same 3 x 3 board after solve: true, while the root's entry is false. | Read the root's entry. | not executed | ThreeByThree.HasWinningStrategyOnLostBoard | GameSolver.Solver.RootHasWinningStrategy |
| backtrack-battles/GameSolver.cpp:148-151 | getBestMove returns currentBestMove: the root, or the last state recorded as good since (lines 82 and 123), with the move a memo hit last wrote (line 73). After the search it is the root exactly when the root is good or has no move at all. | The same 3 x 3 board after solve: the returned state is not the root. | Return the root with its own memoized move, the sentinel when the root is not good. | not executed | ThreeByThree.BestMoveOnLostBoard | GameSolver.Solver.RootBestMove |
