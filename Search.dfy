/**
 * The explicit-stack search of GameSolver::processNextFrame, on values: the
 * frames on the stack, the invariant they keep together with the memo table
 * and the best-move record, and how each kind of step preserves it.
 *
 * A stack is a sequence of frames listed from the bottom up: index 0 holds
 * the root (the state the solver was built for) and the last index the top.
 */
module Search {
  import opened GameState
  import opened Outcome

  /** StackFrame: a state, the next move to try, the generated moves, and whether the state has been evaluated. */
  datatype Frame = Frame(state: State, moveIndex: nat, moves: seq<Move>, evaluated: bool)

  /** A fresh frame for a state: nothing expanded, not evaluated, and carrying the whole cost of the state. */
  function NewFrame(s: State, moves: seq<Move>): (f: Frame)
    requires Valid(s) && moves == MoveList(s)
    ensures FrameOk(f) && f.state == s && f.moves == moves
    ensures f.moveIndex == 0 && !f.evaluated && Residual(f) == Cost(s)
  {
    Frame(s, 0, moves, false)
  }

  /** A frame holds a valid state, exactly the moves generated for it, and an index within them. */
  ghost predicate FrameOk(f: Frame) {
    Valid(f.state) && f.moves == MoveList(f.state) && f.moveIndex <= |f.moves|
  }

  ghost predicate FramesOk(c: seq<Frame>) {
    forall k :: 0 <= k < |c| ==> FrameOk(c[k])
  }

  /** The successors at the positions before n all have a memoized verdict. */
  ghost predicate Expanded(s: State, n: int, cache: map<State, StateResult>)
    requires Valid(s) && n <= |MoveList(s)|
  {
    forall j :: 0 <= j < n ==> Successor(s, j) in cache
  }

  /**
   * Frame k - 1 has been expanded and not evaluated, frame k holds the
   * successor of its last expanded move, and frame k is closer to the end of
   * the game than the bottom frame.
   */
  ghost predicate Linked(c: seq<Frame>, k: int)
    requires FramesOk(c) && 1 <= k < |c|
  {
    && !c[k - 1].evaluated && 1 <= c[k - 1].moveIndex
    && c[k].state == Successor(c[k - 1].state, c[k - 1].moveIndex - 1)
    && Distance(c[k].state) < Distance(c[0].state)
  }

  /** The frames form a path of moves up from the root. */
  ghost predicate Chained(c: seq<Frame>, root: State)
    requires FramesOk(c)
  {
    && (c != [] ==> c[0].state == root)
    && forall k {:trigger Linked(c, k)} :: 1 <= k < |c| ==> Linked(c, k)
  }

  /**
   * The successors a frame has already handed to the search are memoized:
   * all of them for the top frame, all but the one being searched above it
   * for the others. An evaluated top frame's own verdict is memoized.
   */
  ghost predicate Explored(c: seq<Frame>, cache: map<State, StateResult>)
    requires FramesOk(c)
  {
    && (forall k :: 0 <= k < |c| - 1 ==> Expanded(c[k].state, c[k].moveIndex - 1, cache))
    && (c != [] ==> Expanded(c[|c| - 1].state, c[|c| - 1].moveIndex, cache))
    && (c != [] && c[|c| - 1].evaluated ==> c[|c| - 1].state in cache)
  }

  /**
   * The root's verdict is memoized once the stack is empty; once it is, only
   * the root's own evaluated frame can be left, and all its successors are
   * memoized too.
   */
  ghost predicate RootSettled(c: seq<Frame>, cache: map<State, StateResult>, root: State)
    requires Valid(root)
  {
    && (c == [] ==> root in cache)
    && (root in cache ==> c == [] || (|c| == 1 && c[0].evaluated))
    && (root in cache ==> Expanded(root, |MoveList(root)|, cache))
  }

  /**
   * What currentBestMove records: its state is the root or a memoized good
   * state; it stays at the root only while the first successor of the root is
   * not known to be good or the root is known to be good; it is the root's
   * winning move once the root is known to be good; and it never leaves a
   * root that has no move.
   */
  ghost predicate BestMoveSound(best: (State, Move), cache: map<State, StateResult>, root: State)
    requires Valid(root) && CacheSound(cache)
  {
    && (best.0 == root || (best.0 in cache && cache[best.0].isGood))
    && (best.0 == root && MoveList(root) != [] && Successor(root, 0) in cache ==>
          !cache[Successor(root, 0)].isGood || (root in cache && cache[root].isGood))
    && (root in cache && cache[root].isGood ==> best == (root, cache[root].bestMove))
    && (MoveList(root) == [] ==> best.0 == root)
  }

  /** The invariant of the solver between two calls of processNextFrame. */
  ghost predicate Inv(c: seq<Frame>, cache: map<State, StateResult>, best: (State, Move), root: State) {
    && Valid(root) && CacheSound(cache) && FramesOk(c)
    && Chained(c, root) && Explored(c, cache)
    && RootSettled(c, cache, root) && BestMoveSound(best, cache, root)
  }

  // ---------------------------------------------------------------------------
  // The work left, which every step of the search decreases
  // ---------------------------------------------------------------------------

  /** An evaluated frame costs one more step (its pop); otherwise its evaluation and what is left of its successors. */
  ghost function Residual(f: Frame): nat
    requires FrameOk(f)
  {
    if f.evaluated then 1 else 2 + Remaining(f.state, f.moveIndex)
  }

  ghost function Work(c: seq<Frame>): nat
    requires FramesOk(c)
  {
    if c == [] then 0 else Work(c[..|c| - 1]) + Residual(c[|c| - 1])
  }

  // ---------------------------------------------------------------------------
  // The steps of the search
  // ---------------------------------------------------------------------------

  /** Memoizing more states keeps every memoized successor memoized. */
  lemma ExpandedGrows(s: State, n: int, cache: map<State, StateResult>, cache2: map<State, StateResult>)
    requires Valid(s) && n <= |MoveList(s)| && Expanded(s, n, cache) && cache.Keys <= cache2.Keys
    ensures Expanded(s, n, cache2)
  {
    forall j | 0 <= j < n
      ensures Successor(s, j) in cache2
    {
      assert Successor(s, j) in cache;
    }
  }

  /** Only the bottom frame holds the root, and a stack of two frames or more means the root has a move. */
  lemma TopIsRoot(c: seq<Frame>, root: State)
    requires FramesOk(c) && Chained(c, root) && c != []
    ensures c[|c| - 1].state == root <==> |c| == 1
    ensures |c| > 1 ==> MoveList(root) != []
  {
    if |c| > 1 {
      assert Linked(c, |c| - 1);
      assert Linked(c, 1) && FrameOk(c[0]);
    }
  }

  /**
   * What processNextFrame may rely on about the top frame: it is well formed,
   * and every successor it has expanded is memoized.
   */
  lemma TopFrame(c: seq<Frame>, cache: map<State, StateResult>, best: (State, Move), root: State)
    requires Inv(c, cache, best, root) && c != []
    ensures Valid(root) && CacheSound(cache) && FramesOk(c)
    ensures FrameOk(c[|c| - 1]) && Expanded(c[|c| - 1].state, c[|c| - 1].moveIndex, cache)
  {
  }

  /** The constructor's stack: the root alone and unexpanded, nothing memoized, the best move unset. */
  lemma StartInv(root: State)
    requires Valid(root)
    ensures Inv([Frame(root, 0, MoveList(root), false)], map[], (root, NoMove), root)
  {
  }

  /** Popping the top frame leaves a path of moves up from the root. */
  lemma PopKeepsChain(c: seq<Frame>, root: State)
    requires FramesOk(c) && Chained(c, root) && c != []
    ensures FramesOk(c[..|c| - 1]) && Chained(c[..|c| - 1], root)
    ensures |c| == 1 ==> c[0].state == root
  {
    hide MoveList;
    var d := c[..|c| - 1];
    assert FramesOk(d);
    forall k | 1 <= k < |d|
      ensures Linked(d, k)
    {
      assert Linked(c, k);
    }
  }

  /**
   * Popping a top frame whose state is memoized leaves the frame below it
   * with all its expanded successors memoized.
   */
  lemma PopKeepsExplored(c: seq<Frame>, cache: map<State, StateResult>, cache2: map<State, StateResult>, root: State)
    requires FramesOk(c) && Chained(c, root) && Explored(c, cache)
    requires c != [] && cache.Keys <= cache2.Keys && c[|c| - 1].state in cache2
    ensures FramesOk(c[..|c| - 1]) && Explored(c[..|c| - 1], cache2)
  {
    hide MoveList;
    var n := |c| - 1;
    var d := c[..n];
    PopKeepsChain(c, root);
    forall k | 0 <= k < n
      ensures Expanded(d[k].state, d[k].moveIndex - 1, cache2)
    {
      ExpandedGrows(c[k].state, c[k].moveIndex - 1, cache, cache2);
    }
    if n > 0 {
      assert Linked(c, n);
      assert Expanded(d[n - 1].state, d[n - 1].moveIndex, cache2);
    }
  }

  /** Popping a top frame whose state is memoized keeps the stack a memoized path from the root. */
  lemma PopKeepsStack(c: seq<Frame>, cache: map<State, StateResult>, cache2: map<State, StateResult>, root: State)
    requires FramesOk(c) && Chained(c, root) && Explored(c, cache)
    requires c != [] && cache.Keys <= cache2.Keys && c[|c| - 1].state in cache2
    ensures FramesOk(c[..|c| - 1]) && Chained(c[..|c| - 1], root) && Explored(c[..|c| - 1], cache2)
    ensures |c| == 1 ==> c[0].state == root
  {
    PopKeepsChain(c, root);
    PopKeepsExplored(c, cache, cache2, root);
  }

  /** processNextFrame on an evaluated frame: it is popped. */
  lemma PopEvaluatedKeeps(c: seq<Frame>, cache: map<State, StateResult>, best: (State, Move), root: State)
    requires Inv(c, cache, best, root) && c != [] && c[|c| - 1].evaluated
    ensures Inv(c[..|c| - 1], cache, best, root)
    ensures Work(c[..|c| - 1]) < Work(c)
  {
    PopKeepsStack(c, cache, cache, root);
  }

  /** processNextFrame on a memoized state: the frame is popped and the best move takes the memoized move. */
  lemma PopCachedKeeps(c: seq<Frame>, cache: map<State, StateResult>, best: (State, Move), root: State)
    requires Inv(c, cache, best, root) && c != []
    requires !c[|c| - 1].evaluated && c[|c| - 1].state in cache
    ensures Inv(c[..|c| - 1], cache, (best.0, cache[c[|c| - 1].state].bestMove), root)
    ensures Work(c[..|c| - 1]) < Work(c)
  {
    PopKeepsStack(c, cache, cache, root);
  }

  /** processNextFrame on a state the side to move has won: memoized as good with no move, recorded as best, popped. */
  lemma WinKeeps(c: seq<Frame>, cache: map<State, StateResult>, best: (State, Move), root: State)
    requires Inv(c, cache, best, root) && c != []
    requires !c[|c| - 1].evaluated && c[|c| - 1].state !in cache
    requires WonFor(c[|c| - 1].state, c[|c| - 1].state.currentPlayer)
    ensures var s := c[|c| - 1].state;
      Inv(c[..|c| - 1], cache[s := StateResult(true, NoMove)], (s, NoMove), root)
    ensures Work(c[..|c| - 1]) < Work(c)
  {
    hide Valid;
    hide MoveList;
    var s := c[|c| - 1].state;
    var cache2 := cache[s := StateResult(true, NoMove)];
    WonLeavesNoMoves(s);
    TopIsRoot(c, root);
    PopKeepsStack(c, cache, cache2, root);
    assert CacheSound(cache2);
  }

  /** The stack after processNextFrame expands the top frame by its next move. */
  ghost function Expand(c: seq<Frame>): (d: seq<Frame>)
    requires FramesOk(c) && c != [] && c[|c| - 1].moveIndex < |c[|c| - 1].moves|
    ensures |d| == |c| + 1 && d[..|c| - 1] == c[..|c| - 1]
  {
    var f := c[|c| - 1];
    var child := Successor(f.state, f.moveIndex);
    c[..|c| - 1] + [f.(moveIndex := f.moveIndex + 1), Frame(child, 0, MoveList(child), false)]
  }

  /** Expanding the top frame spends one step of the work left. */
  lemma ExpandWork(c: seq<Frame>)
    requires FramesOk(c) && c != [] && c[|c| - 1].moveIndex < |c[|c| - 1].moves|
    requires !c[|c| - 1].evaluated
    ensures FramesOk(Expand(c)) && Work(Expand(c)) < Work(c)
  {
    hide MoveList;
    var n := |c| - 1;
    var f := c[n];
    var d := Expand(c);
    var child := Successor(f.state, f.moveIndex);
    assert d[n] == f.(moveIndex := f.moveIndex + 1);
    assert d[n + 1] == Frame(child, 0, MoveList(child), false);
    assert FrameOk(d[n]) && FrameOk(d[n + 1]);
    assert FramesOk(d);
    assert Residual(c[n]) == 3 + Cost(child) + Remaining(f.state, f.moveIndex + 1);
    assert Residual(d[n + 1]) == Cost(child);
    assert d[..n + 1][..n] == c[..n];
    assert Work(d) == Work(c[..n]) + Residual(d[n]) + Residual(d[n + 1]);
  }

  /** processNextFrame on a frame with a move left: the index advances and the successor is pushed. */
  lemma ExpandKeeps(c: seq<Frame>, cache: map<State, StateResult>, best: (State, Move), root: State)
    requires Inv(c, cache, best, root) && c != []
    requires !c[|c| - 1].evaluated && c[|c| - 1].state !in cache
    requires c[|c| - 1].moveIndex < |c[|c| - 1].moves|
    ensures Inv(Expand(c), cache, best, root)
    ensures Work(Expand(c)) < Work(c)
  {
    hide Valid;
    hide MoveList;
    hide Distance;
    hide Successor;
    ExpandWork(c);
    var n := |c| - 1;
    var f := c[n];
    var d := Expand(c);
    TopIsRoot(c, root);
    assert d[n] == f.(moveIndex := f.moveIndex + 1);
    assert d[n + 1].state == Successor(f.state, f.moveIndex);
    forall k | 1 <= k < n
      ensures Linked(d, k)
    {
      assert Linked(c, k);
    }
    if n > 0 {
      assert Linked(c, n);
    }
    assert Linked(d, n + 1);
    assert Chained(d, root);
    assert Explored(d, cache);
  }

  /** The verdict a complete scan of the successors finds: the first that is not good, or none. */
  lemma ScanResult(s: State, i: int)
    requires Valid(s) && !WonFor(s, s.currentPlayer) && 0 <= i <= |MoveList(s)|
    requires forall j :: 0 <= j < i ==> Good(Successor(s, j))
    requires i < |MoveList(s)| ==> !Good(Successor(s, i))
    ensures Expected(s) ==
      if i < |MoveList(s)| then StateResult(true, MoveList(s)[i]) else StateResult(false, NoMove)
  {
    FirstWinningAt(s, i);
  }

  /** The stack after processNextFrame marks the top frame evaluated. */
  ghost function MarkEvaluated(c: seq<Frame>): (d: seq<Frame>)
    requires c != []
    ensures |d| == |c| && d[..|c| - 1] == c[..|c| - 1]
  {
    c[..|c| - 1] + [c[|c| - 1].(evaluated := true)]
  }

  /**
   * processNextFrame on a frame whose moves are all expanded: the verdict is
   * memoized, recorded as best when good, and the frame is marked evaluated.
   */
  lemma EvaluateKeeps(c: seq<Frame>, cache: map<State, StateResult>, best: (State, Move), root: State)
    requires Inv(c, cache, best, root) && c != []
    requires !c[|c| - 1].evaluated && c[|c| - 1].state !in cache
    requires !WonFor(c[|c| - 1].state, c[|c| - 1].state.currentPlayer)
    requires c[|c| - 1].moveIndex >= |c[|c| - 1].moves|
    ensures var s := c[|c| - 1].state;
      Inv(MarkEvaluated(c), cache[s := Expected(s)],
          if Expected(s).isGood then (s, Expected(s).bestMove) else best, root)
    ensures Work(MarkEvaluated(c)) < Work(c)
  {
    hide Valid;
    hide MoveList;
    hide Distance;
    hide Successor;
    var n := |c| - 1;
    var s := c[n].state;
    var r := Expected(s);
    var cache2 := cache[s := r];
    var best2 := if r.isGood then (s, r.bestMove) else best;
    var d := MarkEvaluated(c);
    TopIsRoot(c, root);
    assert d[n] == c[n].(evaluated := true);
    assert FramesOk(d);
    forall k | 0 <= k < n
      ensures Expanded(d[k].state, d[k].moveIndex - 1, cache2)
    {
      ExpandedGrows(c[k].state, c[k].moveIndex - 1, cache, cache2);
    }
    ExpandedGrows(s, c[n].moveIndex, cache, cache2);
    forall k | 1 <= k < |d|
      ensures Linked(d, k)
    {
      assert Linked(c, k);
    }
    assert CacheSound(cache2);
    if s == root && !r.isGood && MoveList(root) != [] {
      GoodByMoveList(root);
      assert Successor(root, 0) in cache && Good(Successor(root, 0));
    }
    assert BestMoveSound(best2, cache2, root);
    assert d[..n] == c[..n];
  }

  /** The solver's state on values: the stack, the memo table and the best-move record. */
  datatype Config = Config(stack: seq<Frame>, cache: map<State, StateResult>, best: (State, Move))

  /**
   * One call of processNextFrame on a non-empty stack: pop an evaluated
   * frame; pop a memoized one, taking its move into the best-move record;
   * memoize, record and pop a state its side to move has won; expand the
   * next move; or, once every move is expanded, memoize the verdict, record
   * it when good, and mark the frame evaluated.
   */
  ghost function SearchStep(g: Config): (h: Config)
    requires FramesOk(g.stack) && g.stack != []
    ensures |h.stack| <= |g.stack| + 1
    ensures forall x :: x in g.cache ==> x in h.cache && h.cache[x] == g.cache[x]
    ensures h.best.0 == g.best.0 || h.best.0 == g.stack[|g.stack| - 1].state
  {
    var n := |g.stack| - 1;
    var f := g.stack[n];
    if f.evaluated then
      g.(stack := g.stack[..n])
    else if f.state in g.cache then
      Config(g.stack[..n], g.cache, (g.best.0, g.cache[f.state].bestMove))
    else if WonFor(f.state, f.state.currentPlayer) then
      Config(g.stack[..n], g.cache[f.state := StateResult(true, NoMove)], (f.state, NoMove))
    else if f.moveIndex < |f.moves| then
      g.(stack := Expand(g.stack))
    else
      var r := Expected(f.state);
      Config(MarkEvaluated(g.stack), g.cache[f.state := r], if r.isGood then (f.state, r.bestMove) else g.best)
  }

  /** Every step of the search keeps the invariant and decreases the work left. */
  lemma SearchStepKeeps(g: Config, root: State)
    requires Inv(g.stack, g.cache, g.best, root) && g.stack != []
    ensures var h := SearchStep(g);
      Inv(h.stack, h.cache, h.best, root) && Work(h.stack) < Work(g.stack)
  {
    hide Inv;
    var c := g.stack;
    var f := c[|c| - 1];
    if f.evaluated {
      PopEvaluatedKeeps(c, g.cache, g.best, root);
    } else if f.state in g.cache {
      PopCachedKeeps(c, g.cache, g.best, root);
    } else if WonFor(f.state, f.state.currentPlayer) {
      WinKeeps(c, g.cache, g.best, root);
    } else if f.moveIndex < |f.moves| {
      ExpandKeeps(c, g.cache, g.best, root);
    } else {
      EvaluateKeeps(c, g.cache, g.best, root);
    }
  }

  /**
   * What solve() reads back once the stack is empty: the recorded best state
   * is memoized, and its verdict is good exactly when the root is good or the
   * root has any move at all; the root's own verdict is the right one.
   */
  lemma FinishedVerdict(cache: map<State, StateResult>, best: (State, Move), root: State)
    requires Inv([], cache, best, root)
    ensures root in cache && cache[root].isGood == Good(root)
    ensures best.0 in cache
    ensures cache[best.0].isGood <==> Good(root) || MoveList(root) != []
    ensures Good(root) ==> best == (root, Expected(root).bestMove)
    ensures best.0 == root <==> Good(root) || MoveList(root) == []
  {
    if !Good(root) && MoveList(root) != [] {
      GoodByMoveList(root);
      assert Expanded(root, |MoveList(root)|, cache);
      assert Successor(root, 0) in cache && Good(Successor(root, 0));
    }
  }

  /** FinishedVerdict, for a stack that may not be empty yet. */
  lemma VerdictOnceFinished(c: seq<Frame>, cache: map<State, StateResult>, best: (State, Move), root: State)
    requires Inv(c, cache, best, root)
    ensures c == [] ==> root in cache && cache[root].isGood == Good(root) && best.0 in cache
    ensures c == [] ==> (cache[best.0].isGood <==> Good(root) || MoveList(root) != [])
    ensures c == [] && Good(root) ==> best == (root, Expected(root).bestMove)
    ensures c == [] ==> (best.0 == root <==> Good(root) || MoveList(root) == [])
  {
    if c == [] {
      FinishedVerdict(cache, best, root);
    }
  }
}
