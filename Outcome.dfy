/**
 * What the solver computes, defined independently of how it computes it.
 *
 * A state is "good" for the side to move when that side has already won, or
 * when some valid move leads to a state that is not good for the opponent.
 * The definition is well founded because every move shortens the distance
 * the tokens still have to travel.
 *
 * The solver memoizes, per state, whether it is good and which move wins:
 * the first move, in generation order, whose successor is not good.
 */
module Outcome {
  import opened GameState

  /** One memoized verdict: whether the state is good, and the winning move if there is one. */
  datatype StateResult = StateResult(isGood: bool, bestMove: Move)

  /** The state reached by the j-th generated move. */
  ghost function Successor(s: State, j: int): (t: State)
    requires Valid(s) && 0 <= j < |MoveList(s)|
    ensures Valid(t) && Distance(t) < Distance(s)
  {
    assert MoveList(s)[j] in MoveList(s);
    Next(s, MoveList(s)[j])
  }

  /** The side to move has already won, or can move to a state that is not good for the opponent. */
  ghost predicate Good(s: State)
    requires Valid(s)
    decreases Distance(s)
  {
    WonFor(s, s.currentPlayer) || exists m :: IsValidMove(s, m) && !Good(Next(s, m))
  }

  /** Good, read off the generated move list instead of all valid moves. */
  lemma GoodByMoveList(s: State)
    requires Valid(s)
    ensures Good(s) <==>
      WonFor(s, s.currentPlayer) || exists j :: 0 <= j < |MoveList(s)| && !Good(Successor(s, j))
  {
    assert WellFormed(s);
    hide Valid;
    var ms := MoveList(s);
    if exists m :: IsValidMove(s, m) && !Good(Next(s, m)) {
      var m :| IsValidMove(s, m) && !Good(Next(s, m));
      assert m in ms;
      var j :| 0 <= j < |ms| && ms[j] == m;
      assert !Good(Successor(s, j));
    }
    if exists j :: 0 <= j < |ms| && !Good(Successor(s, j)) {
      var j :| 0 <= j < |ms| && !Good(Successor(s, j));
      assert ms[j] in ms;
      assert IsValidMove(s, ms[j]) && !Good(Next(s, ms[j]));
    }
  }

  /** A side that has already won is in a good state. */
  lemma WonIsGood(s: State)
    requires Valid(s) && WonFor(s, s.currentPlayer)
    ensures Good(s)
  {
  }

  /** A side that has not won and has no move is in a bad state. */
  lemma StuckIsBad(s: State)
    requires Valid(s) && !WonFor(s, s.currentPlayer) && MoveList(s) == []
    ensures !Good(s)
  {
    forall m
      ensures !IsValidMove(s, m)
    {
      assert m !in MoveList(s);
    }
  }

  /**
   * The position of the first generated move, from position i on, whose
   * successor is not good; the length of the move list when there is none.
   */
  ghost function FirstWinning(s: State, i: int): (k: int)
    requires Valid(s) && 0 <= i <= |MoveList(s)|
    ensures i <= k <= |MoveList(s)|
    decreases |MoveList(s)| - i
  {
    if i == |MoveList(s)| || !Good(Successor(s, i)) then i
    else FirstWinning(s, i + 1)
  }

  /** Every successor FirstWinning passes over is good, and the one it stops at, if any, is not. */
  lemma {:induction false} FirstWinningSpec(s: State, i: int)
    requires Valid(s) && 0 <= i <= |MoveList(s)|
    ensures forall j :: i <= j < FirstWinning(s, i) ==> Good(Successor(s, j))
    ensures FirstWinning(s, i) < |MoveList(s)| ==> !Good(Successor(s, FirstWinning(s, i)))
    decreases |MoveList(s)| - i
  {
    hide Valid;
    if i < |MoveList(s)| && Good(Successor(s, i)) {
      FirstWinningSpec(s, i + 1);
    }
  }

  /** A scan that found every successor before position i good and the one at i not good stopped at the first winning move. */
  lemma FirstWinningAt(s: State, i: int)
    requires Valid(s) && 0 <= i <= |MoveList(s)|
    requires forall j :: 0 <= j < i ==> Good(Successor(s, j))
    requires i < |MoveList(s)| ==> !Good(Successor(s, i))
    ensures FirstWinning(s, 0) == i
  {
    FirstWinningSpec(s, 0);
  }

  /**
   * The verdict the solver records for a state: good with no move when the
   * side to move has already won, good with the first winning move when
   * there is one, and bad with no move otherwise.
   */
  ghost function Expected(s: State): (r: StateResult)
    requires Valid(s)
    ensures r.isGood == Good(s)
    ensures !r.isGood || WonFor(s, s.currentPlayer) ==> r.bestMove == NoMove
    ensures r.isGood && !WonFor(s, s.currentPlayer) ==>
      IsValidMove(s, r.bestMove) && !Good(Next(s, r.bestMove))
  {
    if WonFor(s, s.currentPlayer) then StateResult(true, NoMove)
    else
      GoodByMoveList(s);
      var k := FirstWinning(s, 0);
      FirstWinningSpec(s, 0);
      if k < |MoveList(s)| then
        assert MoveList(s)[k] in MoveList(s);
        StateResult(true, MoveList(s)[k])
      else StateResult(false, NoMove)
  }

  /** Every entry of a sound memo table is the verdict Expected gives. */
  ghost predicate CacheSound(cache: map<State, StateResult>) {
    forall x :: x in cache ==> Valid(x) && cache[x] == Expected(x)
  }

  // ---------------------------------------------------------------------------
  // The size of the search below a state, used to bound the solver's loop
  // ---------------------------------------------------------------------------

  /** Steps of the explicit-stack search spent on a state that is not yet memoized, at most. */
  ghost function Cost(s: State): nat
    requires Valid(s)
    decreases Distance(s), 1, 0
  {
    2 + Remaining(s, 0)
  }

  /** Steps still to be spent on the successors from position i on. */
  ghost function Remaining(s: State, i: int): nat
    requires Valid(s) && 0 <= i <= |MoveList(s)|
    decreases Distance(s), 0, |MoveList(s)| - i
  {
    if i == |MoveList(s)| then 0
    else 1 + Cost(Successor(s, i)) + Remaining(s, i + 1)
  }
}
