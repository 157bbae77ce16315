/**
 * GameSolver: the memoized win/loss search over game states.
 *
 * The recursive form (isGoodState) and the explicit-stack form
 * (processNextFrame, driven by solve) both fill the same memo table, whose
 * every entry is the verdict Outcome.Expected gives. The stack form also keeps
 * a best-move record, which solve and hasWinningStrategy read back.
 */
module GameSolver {
  import opened Wrappers
  import opened GameState
  import opened Stacks
  import opened Outcome
  import opened Search

  /** The std::out_of_range that unordered_map::at throws for a missing key. */
  datatype SolverError = KeyNotFound

  class Solver {
    /** The explicit stack of frames; the constructor pushes the initial state's frame. */
    const stateStack: Stack<Frame>
    /** memoizationCache, keyed on the state value. */
    var cache: map<State, StateResult>
    var currentBestMove: (State, Move)
    /** The state the solver was built for: the root of the search. */
    const initialState: State
    ghost var Repr: set<object>

    /** The stack object is valid and inside this solver's footprint. */
    ghost predicate StackOk()
      reads this, Repr
    {
      && this in Repr && stateStack in Repr
      && stateStack.Repr <= Repr && this !in stateStack.Repr
      && stateStack.Valid()
    }

    ghost predicate Valid()
      reads this, Repr
    {
      StackOk() && Inv(stateStack.Contents, cache, currentBestMove, initialState)
    }

    /**
     * The constructor: one unexpanded frame for the initial state, nothing
     * memoized, and the best move recorded as the initial state with the
     * sentinel move.
     */
    constructor (initial: State)
      requires GameState.Valid(initial)
      ensures Valid() && fresh(Repr)
      ensures initialState == initial && cache == map[] && currentBestMove == (initial, NoMove)
      ensures stateStack.Contents == [Frame(initial, 0, MoveList(initial), false)]
    {
      hide MoveList;
      hide NewFrame;
      initialState := initial;
      cache := map[];
      currentBestMove := (initial, NoMove);
      var moves := GenerateAllPossibleMoves(initial);
      stateStack := new Stack();
      new;
      stateStack.Push(NewFrame(initial, moves));
      Repr := {this} + stateStack.Repr;
      StartInv(initial);
    }

    /**
     * isGoodState, the recursive form: the state's verdict is memoized and
     * returned, memoized entries are never replaced, and the best-move record
     * only ever moves to a memoized good state.
     */
    method IsGoodState(state: State) returns (good: bool)
      requires GameState.Valid(state) && CacheSound(cache)
      modifies this`cache, this`currentBestMove
      ensures CacheSound(cache)
      ensures forall x :: x in old(cache) ==> x in cache && cache[x] == old(cache)[x]
      ensures state in cache && good == Good(state)
      ensures currentBestMove.0 == old(currentBestMove.0) ||
        (currentBestMove.0 in cache && cache[currentBestMove.0].isGood)
      decreases Distance(state)
    {
      hide GameState.Valid;
      hide MoveList;
      hide Distance;
      if state in cache {
        currentBestMove := (currentBestMove.0, cache[state].bestMove);
        return cache[state].isGood;
      }
      var won := IsWinningForPlayer(state, state.currentPlayer);
      if won {
        cache := cache[state := StateResult(true, NoMove)];
        return true;
      }
      var moves := GenerateAllPossibleMoves(state);
      if moves == [] {
        StuckIsBad(state);
        cache := cache[state := StateResult(false, NoMove)];
        return false;
      }
      good := false;
      var i := 0;
      while i < |moves|
        invariant 0 <= i <= |moves| && moves == MoveList(state)
        invariant CacheSound(cache)
        invariant forall x :: x in old(cache) ==> x in cache && cache[x] == old(cache)[x]
        invariant forall j :: 0 <= j < i ==> Good(Successor(state, j))
        invariant currentBestMove.0 == old(currentBestMove.0) ||
          (currentBestMove.0 in cache && cache[currentBestMove.0].isGood)
        decreases |moves| - i
      {
        var next := ApplyMove(state, moves[i]).value;
        NextIsStep(state, moves[i]);
        assert next == Successor(state, i);
        var opponentIsGood := IsGoodState(next);
        if !opponentIsGood {
          ScanResult(state, i);
          cache := cache[state := StateResult(true, moves[i])];
          currentBestMove := (state, moves[i]);
          good := true;
          break;
        }
        i := i + 1;
      }
      if !good {
        ScanResult(state, |moves|);
        cache := cache[state := StateResult(false, NoMove)];
      }
    }

    /**
     * processNextFrame: false, changing nothing, on an empty stack; otherwise
     * exactly one step of the search (Search.SearchStep), which keeps the
     * solver's invariant and decreases the work left.
     */
    method ProcessNextFrame() returns (progressed: bool)
      requires Valid()
      modifies Repr
      ensures Valid() && fresh(Repr - old(Repr))
      ensures progressed <==> old(stateStack.Contents) != []
      ensures !progressed ==>
        stateStack.Contents == old(stateStack.Contents) && cache == old(cache) &&
        currentBestMove == old(currentBestMove)
      ensures progressed ==>
        Config(stateStack.Contents, cache, currentBestMove) ==
        SearchStep(old(Config(stateStack.Contents, cache, currentBestMove)))
      ensures progressed ==> Work(stateStack.Contents) < old(Work(stateStack.Contents))
    {
      hide Inv;
      hide Work;
      hide GameState.Valid;
      hide MoveList;
      hide Distance;
      hide Stack.Valid;
      hide MoveToken;
      hide Step;
      var empty := stateStack.IsEmpty();
      if empty {
        return false;
      }
      ghost var g := Config(stateStack.Contents, cache, currentBestMove);
      SearchStepKeeps(g, initialState);
      TopFrame(g.stack, cache, currentBestMove, initialState);
      ghost var h := SearchStep(g);
      var top := stateStack.Top();
      var frame := top.value;
      if frame.evaluated {
        var popped := stateStack.Pop();
        assert Config(stateStack.Contents, cache, currentBestMove) == h;
        return true;
      }
      if frame.state in cache {
        currentBestMove := (currentBestMove.0, cache[frame.state].bestMove);
        var popped := stateStack.Pop();
        assert Config(stateStack.Contents, cache, currentBestMove) == h;
        return true;
      }
      var won := IsWinningForPlayer(frame.state, frame.state.currentPlayer);
      if won {
        cache := cache[frame.state := StateResult(true, NoMove)];
        currentBestMove := (frame.state, NoMove);
        var popped := stateStack.Pop();
        assert Config(stateStack.Contents, cache, currentBestMove) == h;
        return true;
      }
      if frame.moveIndex < |frame.moves| {
        ExpandTop(frame);
        assert Config(stateStack.Contents, cache, currentBestMove) == h;
        return true;
      }
      StoreVerdict(frame);
      assert Config(stateStack.Contents, cache, currentBestMove) == h;
      return true;
    }

    /** processNextFrame's expansion: the top frame's index advances and the successor's frame is pushed above it. */
    method ExpandTop(frame: Frame)
      requires StackOk() && stateStack.Contents != []
      requires stateStack.Contents[|stateStack.Contents| - 1] == frame
      requires FrameOk(frame) && frame.moveIndex < |frame.moves|
      modifies this`Repr, stateStack, stateStack.Repr
      ensures StackOk() && fresh(Repr - old(Repr))
      ensures FramesOk(old(stateStack.Contents)) ==> stateStack.Contents == Expand(old(stateStack.Contents))
    {
      hide GameState.Valid;
      hide MoveList;
      hide Step;
      var move := frame.moves[frame.moveIndex];
      assert move in frame.moves;
      stateStack.ReplaceTop(frame.(moveIndex := frame.moveIndex + 1));
      var next := ApplyMove(frame.state, move).value;
      NextIsStep(frame.state, move);
      assert next == Successor(frame.state, frame.moveIndex);
      var nextMoves := GenerateAllPossibleMoves(next);
      stateStack.Push(NewFrame(next, nextMoves));
      Repr := Repr + stateStack.Repr;
    }

    /**
     * processNextFrame's evaluation: the verdict of the top frame's state is
     * memoized, recorded as best when good, and the frame is marked evaluated.
     */
    method StoreVerdict(frame: Frame)
      requires StackOk() && stateStack.Contents != []
      requires stateStack.Contents[|stateStack.Contents| - 1] == frame
      requires FrameOk(frame) && frame.moveIndex >= |frame.moves| && CacheSound(cache)
      requires !WonFor(frame.state, frame.state.currentPlayer)
      requires Expanded(frame.state, frame.moveIndex, cache)
      modifies this`cache, this`currentBestMove, stateStack, stateStack.Repr
      ensures StackOk() && Repr == old(Repr)
      ensures stateStack.Contents == MarkEvaluated(old(stateStack.Contents))
      ensures cache == old(cache)[frame.state := Expected(frame.state)]
      ensures currentBestMove ==
        if Expected(frame.state).isGood then (frame.state, Expected(frame.state).bestMove) else old(currentBestMove)
    {
      hide GameState.Valid;
      hide MoveList;
      var isGood, bestMove := EvaluateFrame(frame);
      cache := cache[frame.state := StateResult(isGood, bestMove)];
      if isGood {
        currentBestMove := (frame.state, bestMove);
      }
      stateStack.ReplaceTop(frame.(evaluated := true));
    }

    /**
     * processNextFrame's scan of a frame whose moves are all expanded: the
     * first move whose memoized successor is not good, or none. Every
     * successor is memoized, so the scan never meets an unexplored state.
     */
    method EvaluateFrame(frame: Frame) returns (isGood: bool, bestMove: Move)
      requires FrameOk(frame) && frame.moveIndex >= |frame.moves| && CacheSound(cache)
      requires !WonFor(frame.state, frame.state.currentPlayer)
      requires Expanded(frame.state, frame.moveIndex, cache)
      ensures StateResult(isGood, bestMove) == Expected(frame.state)
    {
      hide GameState.Valid;
      hide MoveList;
      isGood := false;
      bestMove := NoMove;
      var i := 0;
      while i < |frame.moves|
        invariant 0 <= i <= |frame.moves|
        invariant forall j :: 0 <= j < i ==> Good(Successor(frame.state, j))
        decreases |frame.moves| - i
      {
        assert frame.moves[i] in frame.moves;
        var next := ApplyMove(frame.state, frame.moves[i]).value;
        NextIsStep(frame.state, frame.moves[i]);
        assert next == Successor(frame.state, i);
        assert next in cache;
        if !cache[next].isGood {
          ScanResult(frame.state, i);
          isGood := true;
          bestMove := frame.moves[i];
          return;
        }
        i := i + 1;
      }
      ScanResult(frame.state, |frame.moves|);
    }

    /** solve's loop: processNextFrame until the stack is empty. */
    method Run()
      requires Valid()
      modifies Repr
      ensures Valid() && fresh(Repr - old(Repr))
      ensures stateStack.Contents == []
    {
      hide GameState.Valid;
      var empty := stateStack.IsEmpty();
      while !empty
        invariant Valid() && fresh(Repr - old(Repr))
        invariant empty <==> stateStack.Contents == []
        decreases Work(stateStack.Contents)
      {
        var progressed := ProcessNextFrame();
        if !progressed {
          break;
        }
        empty := stateStack.IsEmpty();
      }
    }

    /**
     * solve, as written: it reads the memo entry of the recorded best state,
     * which is good exactly when the root is good or the root has any move at
     * all. The root's own entry is its true verdict, and when the root is
     * good the recorded best move is the root's first winning move.
     */
    method Solve() returns (result: bool)
      requires Valid()
      modifies Repr
      ensures Valid() && fresh(Repr - old(Repr)) && stateStack.Contents == []
      ensures initialState in cache && cache[initialState].isGood == Good(initialState)
      ensures result <==> Good(initialState) || MoveList(initialState) != []
      ensures Good(initialState) ==> currentBestMove == (initialState, Expected(initialState).bestMove)
    {
      Run();
      FinishedVerdict(cache, currentBestMove, initialState);
      result := cache[currentBestMove.0].isGood;
    }

    /** solve as evidently intended: it reads the root's own memo entry, which is the root's verdict. */
    method SolveForInitialState() returns (result: bool)
      requires Valid()
      modifies Repr
      ensures Valid() && fresh(Repr - old(Repr)) && stateStack.Contents == []
      ensures result == Good(initialState)
    {
      Run();
      FinishedVerdict(cache, currentBestMove, initialState);
      result := cache[initialState].isGood;
    }

    /**
     * getBestMove: the recorded state is the root or a memoized good state;
     * once the search is over and the root is good, it is the root with its
     * first winning move.
     */
    function GetBestMove(): (r: (State, Move))
      reads this, Repr
      requires Valid()
      ensures r.0 == initialState || (r.0 in cache && cache[r.0].isGood && Good(r.0))
      ensures stateStack.Contents == [] && Good(initialState) ==>
        r == (initialState, Expected(initialState).bestMove)
      ensures stateStack.Contents == [] ==>
        (r.0 == initialState <==> Good(initialState) || MoveList(initialState) == [])
    {
      VerdictOnceFinished(stateStack.Contents, cache, currentBestMove, initialState);
      currentBestMove
    }

    /**
     * getBestMove as evidently intended: the root with its own memoized best
     * move, the sentinel while the root has no verdict. A move it reports is
     * a valid move of the root that leaves the opponent in a state that is
     * not good; once the search is over it is the root's first winning move,
     * and the sentinel when the root is not good.
     */
    function RootBestMove(): (r: (State, Move))
      reads this, Repr
      requires Valid()
      ensures r.0 == initialState
      ensures r.1 != NoMove ==>
        Good(initialState) && IsValidMove(initialState, r.1) && !Good(Next(initialState, r.1))
      ensures stateStack.Contents == [] ==> r == (initialState, Expected(initialState).bestMove)
      ensures stateStack.Contents == [] && !Good(initialState) ==> r == (initialState, NoMove)
    {
      VerdictOnceFinished(stateStack.Contents, cache, currentBestMove, initialState);
      if initialState in cache then (initialState, cache[initialState].bestMove)
      else (initialState, NoMove)
    }

    /**
     * hasWinningStrategy, as written: false on an empty memo table; otherwise
     * the memo entry of the recorded best state, which cannot be missing once
     * the search is over. It then answers whether the root is good or has any
     * move at all.
     */
    function HasWinningStrategy(): (r: Result<bool, SolverError>)
      reads this, Repr
      requires Valid()
      ensures cache == map[] ==> r == Success(false)
      ensures r.Failure? ==> currentBestMove.0 == initialState && stateStack.Contents != []
      ensures stateStack.Contents == [] ==> r == Success(Good(initialState) || MoveList(initialState) != [])
    {
      if cache == map[] then Success(false)
      else if currentBestMove.0 !in cache then Failure(KeyNotFound)
      else
        VerdictOnceFinished(stateStack.Contents, cache, currentBestMove, initialState);
        Success(cache[currentBestMove.0].isGood)
    }

    /** hasWinningStrategy as evidently intended: the root's own memo entry, its true verdict once the search is over. */
    function RootHasWinningStrategy(): (r: Result<bool, SolverError>)
      reads this, Repr
      requires Valid()
      ensures cache == map[] ==> r == Success(false)
      ensures r.Success? && cache != map[] ==> r.value == Good(initialState)
      ensures stateStack.Contents == [] ==> r == Success(Good(initialState))
    {
      if cache == map[] then Success(false)
      else if initialState !in cache then Failure(KeyNotFound)
      else Success(cache[initialState].isGood)
    }
  }
}
