/**
 * The smallest board, played out by hand. On the 3 x 3 board each side has a
 * single token: Player 1's at (0, 1) and Player 2's at (1, 0). Player 1 steps
 * down to (1, 1), Player 2 jumps over it to (1, 2) and is home, and Player 1
 * has a single step left. Every line of play is forced, and the player who
 * moves first loses.
 *
 * The solver as written still reports a win on this board: the solve
 * answers from the memo entry of the last good state it recorded, and that
 * entry is not the root's.
 */
module ThreeByThree {
  import opened Wrappers
  import opened GameState
  import opened Outcome
  import opened GameSolver

  /** Player 1 to move, with tokens at (1, 1) and (1, 2): the one step left leaves Player 2 home, so the state is lost. */
  lemma AfterJumpLost(b: State)
    requires Valid(b) && b.size == 3 && b.currentPlayer == Player1
    requires b.player1Tokens == {(1, 1)} && b.player2Tokens == {(1, 2)}
    ensures !Good(b)
  {
    assert (1, 1) in Tokens(b, Player1) && !OnTarget(b, Player1, (1, 1));
    forall m | IsValidMove(b, m)
      ensures Good(Next(b, m))
    {
      ValidMoveShape(b, m);
      NextIsStep(b, m);
      var c := Next(b, m);
      assert Tokens(c, Player2) == {(1, 2)};
      assert WonFor(c, c.currentPlayer);
    }
  }

  /** Player 2 to move, with tokens at (1, 1) and (1, 0): the jump over Player 1's token wins. */
  lemma AfterOpeningWon(a: State)
    requires Valid(a) && a.size == 3 && a.currentPlayer == Player2
    requires a.player1Tokens == {(1, 1)} && a.player2Tokens == {(1, 0)}
    ensures Good(a)
  {
    var jump := Move(1, 0, 1, 2);
    assert a.grid[1][0] == Player2Token && a.grid[1][1] == Player1Token;
    assert (1, 2) !in a.player1Tokens && (1, 2) !in a.player2Tokens;
    assert a.grid[1][2] == Empty;
    assert IsValidMove(a, jump);
    NextIsStep(a, jump);
    AfterJumpLost(Next(a, jump));
  }

  /** Player 1 to move, with tokens at (0, 1) and (1, 0): Player 1 has a move, and every move loses. */
  lemma OpeningLost(s: State)
    requires Valid(s) && s.size == 3 && s.currentPlayer == Player1
    requires s.player1Tokens == {(0, 1)} && s.player2Tokens == {(1, 0)}
    ensures MoveList(s) != [] && !Good(s)
  {
    var step := Move(0, 1, 1, 1);
    assert s.grid[0][1] == Player1Token;
    assert (1, 1) !in s.player1Tokens && (1, 1) !in s.player2Tokens;
    assert s.grid[1][1] == Empty;
    assert IsValidMove(s, step);
    assert step in MoveList(s);
    assert (0, 1) in Tokens(s, Player1) && !OnTarget(s, Player1, (0, 1));
    forall m | IsValidMove(s, m)
      ensures Good(Next(s, m))
    {
      ValidMoveShape(s, m);
      NextIsStep(s, m);
      AfterOpeningWon(Next(s, m));
    }
  }

  /** The 3 x 3 starting board is valid, Player 1 has a move, and it is lost for Player 1. */
  lemma InitialLost()
    ensures Valid(InitialState(3)) && MoveList(InitialState(3)) != []
    ensures !Good(InitialState(3))
  {
    InitialStateValid(3);
    var s := InitialState(3);
    assert s.player1Tokens == {(0, 1)};
    assert s.player2Tokens == {(1, 0)};
    OpeningLost(s);
  }

  /**
   * solve as written on the 3 x 3 board: it answers true although the first
   * player cannot win.
   */
  method SolveClaimsLostBoard() returns (result: bool)
    ensures result && !Good(InitialState(3))
  {
    InitialLost();
    var solver := new Solver(InitialState(3));
    result := solver.Solve();
  }

  /** The corrected solve on the same board answers false. */
  method SolveForInitialStateOnLostBoard() returns (result: bool)
    ensures !result
  {
    InitialLost();
    var solver := new Solver(InitialState(3));
    result := solver.SolveForInitialState();
  }

  /**
   * hasWinningStrategy after the search on the 3 x 3 board: the as-written
   * query reports a win, the root's own memo entry reports the loss.
   */
  method HasWinningStrategyOnLostBoard() returns (asWritten: Result<bool, SolverError>, corrected: Result<bool, SolverError>)
    ensures asWritten == Success(true) && corrected == Success(false)
  {
    InitialLost();
    var solver := new Solver(InitialState(3));
    var _ := solver.Solve();
    asWritten := solver.HasWinningStrategy();
    corrected := solver.RootHasWinningStrategy();
  }

  /**
   * getBestMove after the search on the 3 x 3 board: the as-written record
   * is not the root but a later state the search found good, while the
   * root's own entry carries the sentinel move.
   */
  method BestMoveOnLostBoard() returns (asWritten: (State, Move), corrected: (State, Move))
    ensures asWritten.0 != InitialState(3)
    ensures corrected == (InitialState(3), NoMove)
  {
    InitialLost();
    var solver := new Solver(InitialState(3));
    var _ := solver.Solve();
    asWritten := solver.GetBestMove();
    corrected := solver.RootBestMove();
  }
}
