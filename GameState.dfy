/**
 * The board of the token racing game: an N x N grid, the two token sets and
 * the side to move. Player 1's tokens start on the top edge and only move
 * down; Player 2's tokens start on the left edge and only move right. A move
 * is one step into an empty cell, or a jump over an adjacent opposing token
 * into the empty cell beyond it.
 *
 * A state is a value: applying a move yields a new state and leaves the old
 * one untouched, which is what the source achieves by copying the state and
 * mutating the copy through private helpers.
 */
module GameState {
  import opened Wrappers

  /** The two sides. */
  datatype Player = Player1 | Player2

  /** What a cell of the grid holds. */
  datatype CellStatus = Empty | Player1Token | Player2Token

  /** A directed displacement (fromRow, fromCol) -> (toRow, toCol). */
  datatype Move = Move(fromRow: int, fromCol: int, toRow: int, toCol: int)

  /** What the default `Move()` constructor builds: "no move". */
  const NoMove := Move(-1, -1, -1, -1)

  /** A (row, col) coordinate. */
  type Cell = (int, int)

  type Grid = seq<seq<CellStatus>>

  datatype State = State(
    size: int,
    grid: Grid,
    player1Tokens: set<Cell>,
    player2Tokens: set<Cell>,
    currentPlayer: Player)

  datatype GameError = InvalidSize | InvalidMove

  function Opponent(p: Player): Player {
    if p == Player1 then Player2 else Player1
  }

  /** The mark a side leaves on the cells it occupies. */
  function Mark(p: Player): CellStatus {
    if p == Player1 then Player1Token else Player2Token
  }

  function Tokens(s: State, p: Player): set<Cell> {
    if p == Player1 then s.player1Tokens else s.player2Tokens
  }

  // ---------------------------------------------------------------------------
  // Well-formedness and the invariants every reachable state keeps
  // ---------------------------------------------------------------------------

  predicate IsInBounds(s: State, row: int, col: int) {
    0 <= row < s.size && 0 <= col < s.size
  }

  predicate IsCorner(n: int, row: int, col: int) {
    (row == 0 && col == 0) || (row == 0 && col == n - 1) ||
    (row == n - 1 && col == 0) || (row == n - 1 && col == n - 1)
  }

  /** The grid is size x size and the board is at least 3 x 3. */
  ghost predicate WellFormed(s: State) {
    && s.size >= 3
    && |s.grid| == s.size
    && forall r :: 0 <= r < s.size ==> |s.grid[r]| == s.size
  }

  /** Each token set is exactly the set of cells carrying that side's mark. */
  ghost predicate TokensMatchGrid(s: State)
    requires WellFormed(s)
  {
    && (forall t {:trigger t in s.player1Tokens} :: t in s.player1Tokens ==> IsInBounds(s, t.0, t.1))
    && (forall t {:trigger t in s.player2Tokens} :: t in s.player2Tokens ==> IsInBounds(s, t.0, t.1))
    && forall r, c {:trigger s.grid[r][c]} {:trigger (r, c) in s.player1Tokens} {:trigger (r, c) in s.player2Tokens} ::
         0 <= r < s.size && 0 <= c < s.size ==>
         && ((r, c) in s.player1Tokens <==> s.grid[r][c] == Player1Token)
         && ((r, c) in s.player2Tokens <==> s.grid[r][c] == Player2Token)
  }

  /**
   * Player 1's tokens stay in the columns 1..size-2 and Player 2's in the
   * rows 1..size-2: a token never leaves the lane it started in, so no token
   * ever stands on a corner.
   */
  ghost predicate InLaneRange(s: State) {
    && (forall t {:trigger t in s.player1Tokens} :: t in s.player1Tokens ==> 1 <= t.1 <= s.size - 2)
    && (forall t {:trigger t in s.player2Tokens} :: t in s.player2Tokens ==> 1 <= t.0 <= s.size - 2)
  }

  /** Moreover each lane holds exactly one token of its side. */
  ghost predicate InLanes(s: State) {
    && (forall t, u :: t in s.player1Tokens && u in s.player1Tokens && t.1 == u.1 ==> t == u)
    && |s.player1Tokens| == s.size - 2
    && (forall t, u :: t in s.player2Tokens && u in s.player2Tokens && t.0 == u.0 ==> t == u)
    && |s.player2Tokens| == s.size - 2
  }

  /**
   * The representation invariant of every state the constructor and
   * applyMove produce: the grid is square, the token sets agree with it and
   * the tokens are in their lanes. That each lane holds exactly one token
   * (InLanes) holds of those states as well and is kept apart, because no
   * move rule depends on it.
   */
  ghost predicate Valid(s: State) {
    WellFormed(s) && TokensMatchGrid(s) && InLaneRange(s)
  }

  function CellAt(s: State, row: int, col: int): CellStatus
    requires WellFormed(s) && IsInBounds(s, row, col)
  {
    s.grid[row][col]
  }

  /** The four corners of a valid board are empty and hold no token. */
  lemma CornersEmpty(s: State, row: int, col: int)
    requires Valid(s) && IsInBounds(s, row, col) && IsCorner(s.size, row, col)
    ensures CellAt(s, row, col) == Empty
    ensures (row, col) !in s.player1Tokens && (row, col) !in s.player2Tokens
  {
  }

  // ---------------------------------------------------------------------------
  // Construction
  // ---------------------------------------------------------------------------

  /** The starting board of the given size, with Player 1 to move. */
  function InitialState(n: int): State
    requires n >= 3
  {
    State(
      n,
      seq(n, r => seq(n, c => InitialCell(n, r, c))),
      set c | 1 <= c <= n - 2 :: (0, c),
      set r | 1 <= r <= n - 2 :: (r, 0),
      Player1)
  }

  function InitialCell(n: int, r: int, c: int): CellStatus {
    if r == 0 && 1 <= c <= n - 2 then Player1Token
    else if c == 0 && 1 <= r <= n - 2 then Player2Token
    else Empty
  }

  lemma {:induction false} TopRowSize(k: int)
    requires k >= 1
    ensures |set c | 1 <= c < k :: (0, c)| == k - 1
  {
    if k > 1 {
      TopRowSize(k - 1);
      var smaller := set c | 1 <= c < k - 1 :: (0, c);
      assert (set c | 1 <= c < k :: (0, c)) == smaller + {(0, k - 1)};
    }
  }

  lemma {:induction false} LeftColumnSize(k: int)
    requires k >= 1
    ensures |set r | 1 <= r < k :: (r, 0)| == k - 1
  {
    if k > 1 {
      LeftColumnSize(k - 1);
      var smaller := set r | 1 <= r < k - 1 :: (r, 0);
      assert (set r | 1 <= r < k :: (r, 0)) == smaller + {(k - 1, 0)};
    }
  }

  /**
   * The starting board is valid: Player 1 holds exactly the cells (0, c) and
   * Player 2 exactly the cells (r, 0) for 1 <= c, r <= size-2, every other
   * cell is empty, and Player 1 moves first.
   */
  lemma InitialStateValid(n: int)
    requires n >= 3
    ensures Valid(InitialState(n)) && InLanes(InitialState(n))
    ensures forall r, c :: 0 <= r < n && 0 <= c < n ==>
      CellAt(InitialState(n), r, c) ==
        (if r == 0 && 1 <= c <= n - 2 then Player1Token
         else if c == 0 && 1 <= r <= n - 2 then Player2Token
         else Empty)
    ensures forall t :: t in InitialState(n).player1Tokens <==> t.0 == 0 && 1 <= t.1 <= n - 2
    ensures forall t :: t in InitialState(n).player2Tokens <==> t.1 == 0 && 1 <= t.0 <= n - 2
    ensures InitialState(n).currentPlayer == Player1
  {
    TopRowSize(n - 1);
    LeftColumnSize(n - 1);
    assert (set c | 1 <= c <= n - 2 :: (0, c)) == (set c | 1 <= c < n - 1 :: (0, c));
    assert (set r | 1 <= r <= n - 2 :: (r, 0)) == (set r | 1 <= r < n - 1 :: (r, 0));
  }

  /**
   * The constructor: fails when size < 3, and otherwise fills an all-empty
   * grid with Player 1's top row and Player 2's left column.
   */
  method NewGameState(size: int) returns (r: Result<State, GameError>)
    ensures size < 3 ==> r == Failure(InvalidSize)
    ensures size >= 3 ==> r == Success(InitialState(size)) && Valid(r.value) && InLanes(r.value)
  {
    if size < 3 {
      return Failure(InvalidSize);
    }
    var grid: Grid := seq(size, _ => seq(size, _ => Empty));
    var player1Tokens: set<Cell> := {};
    var player2Tokens: set<Cell> := {};

    var col := 1;
    while col < size - 1
      invariant 1 <= col <= size - 1
      invariant |grid| == size && forall i :: 0 <= i < size ==> |grid[i]| == size
      invariant forall i, j :: 0 <= i < size && 0 <= j < size ==>
        grid[i][j] == (if i == 0 && 1 <= j < col then Player1Token else Empty)
      invariant player1Tokens == set c | 1 <= c < col :: (0, c)
    {
      grid := grid[0 := grid[0][col := Player1Token]];
      player1Tokens := player1Tokens + {(0, col)};
      col := col + 1;
    }

    var row := 1;
    while row < size - 1
      invariant 1 <= row <= size - 1
      invariant |grid| == size && forall i :: 0 <= i < size ==> |grid[i]| == size
      invariant forall i, j :: 0 <= i < size && 0 <= j < size ==>
        grid[i][j] == (if i == 0 && 1 <= j <= size - 2 then Player1Token
                       else if j == 0 && 1 <= i < row then Player2Token
                       else Empty)
      invariant player2Tokens == set r | 1 <= r < row :: (r, 0)
    {
      grid := grid[row := grid[row][0 := Player2Token]];
      player2Tokens := player2Tokens + {(row, 0)};
      row := row + 1;
    }

    var init := InitialState(size);
    assert grid == init.grid by {
      forall i | 0 <= i < size
        ensures grid[i] == init.grid[i]
      {
        assert forall j :: 0 <= j < size ==> grid[i][j] == InitialCell(size, i, j);
      }
    }
    assert player1Tokens == init.player1Tokens;
    assert player2Tokens == init.player2Tokens;
    InitialStateValid(size);
    r := Success(State(size, grid, player1Tokens, player2Tokens, Player1));
  }

  // ---------------------------------------------------------------------------
  // Move validation
  // ---------------------------------------------------------------------------

  /**
   * The rules check for a candidate move of the side to move: both endpoints
   * on the board, the origin not a corner (only the origin is checked), the
   * origin holding the mover's mark, the move forward along the mover's axis,
   * and a displacement of one into an empty cell, or of two over an opposing
   * token into an empty cell.
   */
  predicate IsValidMove(s: State, m: Move)
    requires WellFormed(s)
  {
    if !IsInBounds(s, m.fromRow, m.fromCol) || !IsInBounds(s, m.toRow, m.toCol) then false
    else if IsCorner(s.size, m.fromRow, m.fromCol) then false
    else if s.grid[m.fromRow][m.fromCol] != Mark(s.currentPlayer) then false
    else if s.currentPlayer == Player1 then
      if m.toCol != m.fromCol || m.toRow <= m.fromRow then false
      else if m.toRow == m.fromRow + 1 then
        s.grid[m.toRow][m.toCol] == Empty
      else if m.toRow == m.fromRow + 2 then
        s.grid[m.fromRow + 1][m.fromCol] == Player2Token && s.grid[m.toRow][m.toCol] == Empty
      else false
    else
      if m.toRow != m.fromRow || m.toCol <= m.fromCol then false
      else if m.toCol == m.fromCol + 1 then
        s.grid[m.toRow][m.toCol] == Empty
      else if m.toCol == m.fromCol + 2 then
        s.grid[m.fromRow][m.fromCol + 1] == Player1Token && s.grid[m.toRow][m.toCol] == Empty
      else false
  }

  /**
   * What a valid move looks like: it starts on one of the mover's tokens,
   * advances that token one or two cells along the mover's axis, lands on an
   * empty cell, and a jump passes over an opposing token.
   */
  lemma ValidMoveShape(s: State, m: Move)
    requires Valid(s) && IsValidMove(s, m)
    ensures (m.fromRow, m.fromCol) in Tokens(s, s.currentPlayer)
    ensures IsInBounds(s, m.toRow, m.toCol) && CellAt(s, m.toRow, m.toCol) == Empty
    ensures s.currentPlayer == Player1 ==>
      m.toCol == m.fromCol && (m.toRow == m.fromRow + 1 || m.toRow == m.fromRow + 2)
    ensures s.currentPlayer == Player2 ==>
      m.toRow == m.fromRow && (m.toCol == m.fromCol + 1 || m.toCol == m.fromCol + 2)
    ensures m.toRow == m.fromRow + 2 ==> CellAt(s, m.fromRow + 1, m.fromCol) == Player2Token
    ensures m.toCol == m.fromCol + 2 ==> CellAt(s, m.fromRow, m.fromCol + 1) == Player1Token
  {
  }

  /** On a valid board no valid move starts or ends on a corner. */
  lemma ValidMoveAvoidsCorners(s: State, m: Move)
    requires Valid(s) && IsValidMove(s, m)
    ensures !IsCorner(s.size, m.fromRow, m.fromCol) && !IsCorner(s.size, m.toRow, m.toCol)
  {
    assert (m.fromRow, m.fromCol) in Tokens(s, s.currentPlayer);
  }

  /** The "no move" sentinel is never a valid move. */
  lemma NoMoveIsNeverValid(s: State)
    requires WellFormed(s)
    ensures !IsValidMove(s, NoMove)
  {
  }

  // ---------------------------------------------------------------------------
  // Move generation
  // ---------------------------------------------------------------------------

  /** The moves one token of the side to move can make, single step first. */
  function TokenMoves(s: State, t: Cell): seq<Move>
    requires WellFormed(s) && IsInBounds(s, t.0, t.1)
  {
    var (row, col) := t;
    if s.currentPlayer == Player1 then
      (if row + 1 < s.size && s.grid[row + 1][col] == Empty
       then [Move(row, col, row + 1, col)] else []) +
      (if row + 2 < s.size && s.grid[row + 1][col] == Player2Token && s.grid[row + 2][col] == Empty
       then [Move(row, col, row + 2, col)] else [])
    else
      (if col + 1 < s.size && s.grid[row][col + 1] == Empty
       then [Move(row, col, row, col + 1)] else []) +
      (if col + 2 < s.size && s.grid[row][col + 1] == Player1Token && s.grid[row][col + 2] == Empty
       then [Move(row, col, row, col + 2)] else [])
  }

  /** Ascending (row, col) order: the order in which the model visits a token set. */
  predicate CellLe(a: Cell, b: Cell) {
    a.0 < b.0 || (a.0 == b.0 && a.1 <= b.1)
  }

  predicate IsLeast(c: Cell, ts: set<Cell>) {
    c in ts && forall d :: d in ts ==> CellLe(c, d)
  }

  lemma {:induction false} LeastExists(ts: set<Cell>)
    requires ts != {}
    ensures exists c :: IsLeast(c, ts)
  {
    var x :| x in ts;
    if ts != {x} {
      LeastExists(ts - {x});
      var y :| IsLeast(y, ts - {x});
      if CellLe(x, y) {
        forall d | d in ts
          ensures CellLe(x, d)
        {
          if d != x {
            assert d in ts - {x};
          }
        }
        assert IsLeast(x, ts);
      } else {
        forall d | d in ts
          ensures CellLe(y, d)
        {
          if d != x {
            assert d in ts - {x};
          }
        }
        assert IsLeast(y, ts);
      }
    } else {
      assert IsLeast(x, ts);
    }
  }

  /** A token set listed in ascending order, each token once. */
  ghost function TokenOrder(ts: set<Cell>): (r: seq<Cell>)
    ensures |r| == |ts|
    ensures forall c :: c in r <==> c in ts
    decreases |ts|
  {
    if ts == {} then []
    else
      LeastExists(ts);
      var c :| IsLeast(c, ts);
      [c] + TokenOrder(ts - {c})
  }

  lemma TokenOrderHead(ts: set<Cell>, c: Cell)
    requires IsLeast(c, ts)
    ensures TokenOrder(ts) == [c] + TokenOrder(ts - {c})
  {
  }

  /** The moves of the listed tokens, token by token. */
  function MovesFrom(s: State, ts: seq<Cell>): seq<Move>
    requires WellFormed(s) && forall t :: t in ts ==> IsInBounds(s, t.0, t.1)
  {
    if ts == [] then [] else TokenMoves(s, ts[0]) + MovesFrom(s, ts[1..])
  }

  lemma {:induction false} MovesFromMembership(s: State, ts: seq<Cell>, m: Move)
    requires WellFormed(s) && forall t :: t in ts ==> IsInBounds(s, t.0, t.1)
    ensures m in MovesFrom(s, ts) <==> exists i :: 0 <= i < |ts| && m in TokenMoves(s, ts[i])
  {
    if ts != [] {
      MovesFromMembership(s, ts[1..], m);
      if m in MovesFrom(s, ts[1..]) {
        var i :| 0 <= i < |ts[1..]| && m in TokenMoves(s, ts[1..][i]);
        assert m in TokenMoves(s, ts[i + 1]);
      }
      if exists i :: 0 <= i < |ts| && m in TokenMoves(s, ts[i]) {
        var i :| 0 <= i < |ts| && m in TokenMoves(s, ts[i]);
        if i > 0 {
          assert m in TokenMoves(s, ts[1..][i - 1]);
        }
      }
    }
  }

  /** The moves generated for one of the mover's tokens are exactly the valid moves from it. */
  lemma TokenMovesAreValidMoves(s: State, t: Cell, m: Move)
    requires Valid(s) && t in Tokens(s, s.currentPlayer)
    ensures m in TokenMoves(s, t) <==> IsValidMove(s, m) && (m.fromRow, m.fromCol) == t
  {
  }

  /**
   * The move list of the side to move, in the order the source's loop would
   * produce it when the token set is visited in ascending order. It holds
   * exactly the moves IsValidMove accepts (sound and complete).
   */
  ghost function MoveList(s: State): (r: seq<Move>)
    requires Valid(s)
    ensures forall m {:trigger m in r} :: m in r <==> IsValidMove(s, m)
  {
    MovesFromTokensSoundComplete(s);
    MovesFrom(s, TokenOrder(Tokens(s, s.currentPlayer)))
  }

  lemma MovesFromTokensSoundComplete(s: State)
    requires Valid(s)
    ensures forall m ::
      m in MovesFrom(s, TokenOrder(Tokens(s, s.currentPlayer))) <==> IsValidMove(s, m)
  {
    forall m
      ensures m in MovesFrom(s, TokenOrder(Tokens(s, s.currentPlayer))) <==> IsValidMove(s, m)
    {
      MovesFromTokensMember(s, m);
    }
  }

  /** One move is generated for the mover's tokens exactly when it is valid. */
  lemma MovesFromTokensMember(s: State, m: Move)
    requires Valid(s)
    ensures m in MovesFrom(s, TokenOrder(Tokens(s, s.currentPlayer))) <==> IsValidMove(s, m)
  {
    var order := TokenOrder(Tokens(s, s.currentPlayer));
    assert forall t :: t in order ==> IsInBounds(s, t.0, t.1);
    MovesFromMembership(s, order, m);
    if m in MovesFrom(s, order) {
      var i :| 0 <= i < |order| && m in TokenMoves(s, order[i]);
      TokenMovesAreValidMoves(s, order[i], m);
    }
    if IsValidMove(s, m) {
      var t := (m.fromRow, m.fromCol);
      assert t in order;
      var i :| 0 <= i < |order| && order[i] == t;
      TokenMovesAreValidMoves(s, t, m);
    }
  }

  /** Visiting the least remaining token first emits its moves, then those of the rest. */
  lemma MovesFromLeast(s: State, rest: set<Cell>, token: Cell, done: seq<Move>)
    requires WellFormed(s) && (forall t :: t in rest ==> IsInBounds(s, t.0, t.1)) && IsLeast(token, rest)
    ensures IsInBounds(s, token.0, token.1)
    ensures done + MovesFrom(s, TokenOrder(rest)) ==
      (done + TokenMoves(s, token)) + MovesFrom(s, TokenOrder(rest - {token}))
  {
    hide TokenOrder;
    TokenOrderHead(rest, token);
    var order := TokenOrder(rest);
    assert order[0] == token && order[1..] == TokenOrder(rest - {token});
    var first, others := TokenMoves(s, token), MovesFrom(s, order[1..]);
    assert MovesFrom(s, order) == first + others;
    assert done + (first + others) == (done + first) + others;
  }

  /**
   * The loop body of generateAllPossibleMoves for one token: the single
   * step, then the jump. For a token of the mover on a valid board these
   * are exactly the valid moves that start on that token.
   */
  method MovesOfToken(s: State, token: Cell) returns (moves: seq<Move>)
    requires WellFormed(s) && IsInBounds(s, token.0, token.1)
    ensures moves == TokenMoves(s, token)
    ensures Valid(s) && token in Tokens(s, s.currentPlayer) ==>
      forall m :: m in moves <==> IsValidMove(s, m) && (m.fromRow, m.fromCol) == token
  {
    var row, col := token.0, token.1;
    moves := [];
    if s.currentPlayer == Player1 {
      if row + 1 < s.size && s.grid[row + 1][col] == Empty {
        moves := moves + [Move(row, col, row + 1, col)];
      }
      if row + 2 < s.size && s.grid[row + 1][col] == Player2Token && s.grid[row + 2][col] == Empty {
        moves := moves + [Move(row, col, row + 2, col)];
      }
    } else {
      if col + 1 < s.size && s.grid[row][col + 1] == Empty {
        moves := moves + [Move(row, col, row, col + 1)];
      }
      if col + 2 < s.size && s.grid[row][col + 1] == Player1Token && s.grid[row][col + 2] == Empty {
        moves := moves + [Move(row, col, row, col + 2)];
      }
    }
    if Valid(s) && token in Tokens(s, s.currentPlayer) {
      forall m
        ensures m in moves <==> IsValidMove(s, m) && (m.fromRow, m.fromCol) == token
      {
        TokenMovesAreValidMoves(s, token, m);
      }
    }
  }

  /**
   * generateAllPossibleMoves: visits the mover's tokens and emits, for each,
   * the single step and then the jump when they are open.
   */
  method GenerateAllPossibleMoves(s: State) returns (moves: seq<Move>)
    requires Valid(s)
    ensures moves == MoveList(s)
    ensures forall m :: m in moves <==> IsValidMove(s, m)
  {
    moves := [];
    var rest := Tokens(s, s.currentPlayer);
    ghost var all := MovesFrom(s, TokenOrder(rest));
    while rest != {}
      invariant rest <= Tokens(s, s.currentPlayer)
      invariant forall t :: t in rest ==> IsInBounds(s, t.0, t.1)
      invariant moves + MovesFrom(s, TokenOrder(rest)) == all
      decreases |rest|
    {
      LeastExists(rest);
      var token :| IsLeast(token, rest);
      MovesFromLeast(s, rest, token, moves);
      var tokenMoves := MovesOfToken(s, token);
      moves := moves + tokenMoves;
      rest := rest - {token};
    }
  }

  // ---------------------------------------------------------------------------
  // Applying a move
  // ---------------------------------------------------------------------------

  function SetCell(g: Grid, r: int, c: int, v: CellStatus): Grid
    requires 0 <= r < |g| && 0 <= c < |g[r]|
  {
    g[r := g[r][c := v]]
  }

  /**
   * moveToken: the token at the origin goes to the destination, in the token
   * set of whichever side's mark is on the origin, and the origin is cleared.
   */
  function MoveToken(s: State, fromRow: int, fromCol: int, toRow: int, toCol: int): (t: State)
    requires WellFormed(s) && IsInBounds(s, fromRow, fromCol) && IsInBounds(s, toRow, toCol)
    ensures WellFormed(t) && t.size == s.size && t.currentPlayer == s.currentPlayer
    ensures t.grid[fromRow][fromCol] == Empty
    ensures (toRow, toCol) != (fromRow, fromCol) ==> t.grid[toRow][toCol] == s.grid[fromRow][fromCol]
    ensures forall r, c :: IsInBounds(s, r, c) && (r, c) != (fromRow, fromCol) && (r, c) != (toRow, toCol) ==>
              t.grid[r][c] == s.grid[r][c]
    ensures s.grid[fromRow][fromCol] == Player1Token ==>
              t.player1Tokens == s.player1Tokens - {(fromRow, fromCol)} + {(toRow, toCol)} &&
              t.player2Tokens == s.player2Tokens
    ensures s.grid[fromRow][fromCol] != Player1Token ==>
              t.player2Tokens == s.player2Tokens - {(fromRow, fromCol)} + {(toRow, toCol)} &&
              t.player1Tokens == s.player1Tokens
  {
    var g := SetCell(SetCell(s.grid, toRow, toCol, s.grid[fromRow][fromCol]), fromRow, fromCol, Empty);
    if s.grid[fromRow][fromCol] == Player1Token then
      s.(grid := g, player1Tokens := s.player1Tokens - {(fromRow, fromCol)} + {(toRow, toCol)})
    else
      s.(grid := g, player2Tokens := s.player2Tokens - {(fromRow, fromCol)} + {(toRow, toCol)})
  }

  /** switchPlayer: hand the turn to the other side. */
  function SwitchPlayer(s: State): (t: State)
    ensures t.currentPlayer != s.currentPlayer
    ensures t.(currentPlayer := s.currentPlayer) == s
  {
    s.(currentPlayer := Opponent(s.currentPlayer))
  }

  /** How far a move carries the token along the mover's axis. */
  function Advance(m: Move): int {
    (m.toRow - m.fromRow) + (m.toCol - m.fromCol)
  }

  /**
   * The copy applyMove returns for a move it accepts: the origin is empty,
   * the destination holds the mover's mark, every other cell is unchanged,
   * the mover's token set trades the origin for the destination, the
   * opponent's is unchanged, the turn is flipped, the invariants still hold,
   * and the remaining distance to the target lines drops by the advance.
   */
  function Step(s: State, m: Move): (t: State)
    requires Valid(s) && IsValidMove(s, m)
    ensures Valid(t) && t.size == s.size
    ensures t.currentPlayer == Opponent(s.currentPlayer)
    ensures CellAt(t, m.fromRow, m.fromCol) == Empty
    ensures CellAt(t, m.toRow, m.toCol) == Mark(s.currentPlayer)
    ensures forall r, c ::
              IsInBounds(s, r, c) && (r, c) != (m.fromRow, m.fromCol) && (r, c) != (m.toRow, m.toCol)
              ==> CellAt(t, r, c) == CellAt(s, r, c)
    ensures Tokens(t, s.currentPlayer) ==
      Tokens(s, s.currentPlayer) - {(m.fromRow, m.fromCol)} + {(m.toRow, m.toCol)}
    ensures Tokens(t, Opponent(s.currentPlayer)) == Tokens(s, Opponent(s.currentPlayer))
    ensures 1 <= Advance(m) <= 2 && Distance(t) == Distance(s) - Advance(m)
  {
    StepCells(s, m);
    StepValid(s, m);
    StepDistance(s, m);
    SwitchPlayer(MoveToken(s, m.fromRow, m.fromCol, m.toRow, m.toCol))
  }

  /** The grid and token sets right after a valid move, cell by cell. */
  lemma StepCells(s: State, m: Move)
    requires Valid(s) && IsValidMove(s, m)
    ensures var t := SwitchPlayer(MoveToken(s, m.fromRow, m.fromCol, m.toRow, m.toCol));
      && WellFormed(t) && t.size == s.size
      && t.currentPlayer == Opponent(s.currentPlayer)
      && (forall r, c :: IsInBounds(s, r, c) ==>
            t.grid[r][c] == (if (r, c) == (m.fromRow, m.fromCol) then Empty
                             else if (r, c) == (m.toRow, m.toCol) then Mark(s.currentPlayer)
                             else s.grid[r][c]))
      && Tokens(t, s.currentPlayer) ==
           Tokens(s, s.currentPlayer) - {(m.fromRow, m.fromCol)} + {(m.toRow, m.toCol)}
      && Tokens(t, Opponent(s.currentPlayer)) == Tokens(s, Opponent(s.currentPlayer))
  {
    ValidMoveShape(s, m);
  }

  lemma StepValid(s: State, m: Move)
    requires Valid(s) && IsValidMove(s, m)
    ensures Valid(SwitchPlayer(MoveToken(s, m.fromRow, m.fromCol, m.toRow, m.toCol)))
  {
    var t := SwitchPlayer(MoveToken(s, m.fromRow, m.fromCol, m.toRow, m.toCol));
    var from, to := (m.fromRow, m.fromCol), (m.toRow, m.toCol);
    ValidMoveShape(s, m);
    StepCells(s, m);
    StepTokensMatchGrid(s, m, t);
  }

  /** A move keeps every token in its lane and keeps the token counts. */
  lemma StepKeepsLanes(s: State, m: Move)
    requires Valid(s) && InLanes(s) && IsValidMove(s, m)
    ensures InLanes(Step(s, m))
  {
    StepInLanes(s, m, Step(s, m));
  }

  lemma StepInLanes(s: State, m: Move, t: State)
    requires Valid(s) && InLanes(s) && IsValidMove(s, m) && t.size == s.size
    requires Tokens(t, s.currentPlayer) ==
      Tokens(s, s.currentPlayer) - {(m.fromRow, m.fromCol)} + {(m.toRow, m.toCol)}
    requires Tokens(t, Opponent(s.currentPlayer)) == Tokens(s, Opponent(s.currentPlayer))
    ensures InLanes(t)
  {
    ValidMoveShape(s, m);
    var from, to := (m.fromRow, m.fromCol), (m.toRow, m.toCol);
    var mover := Tokens(s, s.currentPlayer);
    assert to !in mover;
    assert |mover - {from}| == |mover| - 1;
    assert |Tokens(t, s.currentPlayer)| == |mover|;
  }

  lemma StepTokensMatchGrid(s: State, m: Move, t: State)
    requires Valid(s) && IsValidMove(s, m)
    requires WellFormed(t) && t.size == s.size
    requires forall r, c :: IsInBounds(s, r, c) ==>
      t.grid[r][c] == (if (r, c) == (m.fromRow, m.fromCol) then Empty
                       else if (r, c) == (m.toRow, m.toCol) then Mark(s.currentPlayer)
                       else s.grid[r][c])
    requires Tokens(t, s.currentPlayer) ==
      Tokens(s, s.currentPlayer) - {(m.fromRow, m.fromCol)} + {(m.toRow, m.toCol)}
    requires Tokens(t, Opponent(s.currentPlayer)) == Tokens(s, Opponent(s.currentPlayer))
    ensures TokensMatchGrid(t)
  {
    ValidMoveShape(s, m);
    forall r, c | 0 <= r < t.size && 0 <= c < t.size
      ensures && ((r, c) in t.player1Tokens <==> t.grid[r][c] == Player1Token)
              && ((r, c) in t.player2Tokens <==> t.grid[r][c] == Player2Token)
    {
      assert IsInBounds(s, r, c);
    }
  }

  // ---------------------------------------------------------------------------
  // Remaining distance: the termination measure of the search
  // ---------------------------------------------------------------------------

  /** How far the token on a cell still has to go to its target line. */
  function CellDistance(v: CellStatus, r: int, c: int, n: int): nat
    requires 0 <= r < n && 0 <= c < n
  {
    match v
    case Empty => 0
    case Player1Token => n - 1 - r
    case Player2Token => n - 1 - c
  }

  function RowDistance(row: seq<CellStatus>, r: int, n: int, k: int): nat
    requires 0 <= r < n && 0 <= k <= |row| <= n
  {
    if k == 0 then 0 else RowDistance(row, r, n, k - 1) + CellDistance(row[k - 1], r, k - 1, n)
  }

  function GridDistance(g: Grid, n: int, k: int): nat
    requires 0 <= k <= |g| <= n && forall i :: 0 <= i < |g| ==> |g[i]| <= n
  {
    if k == 0 then 0 else GridDistance(g, n, k - 1) + RowDistance(g[k - 1], k - 1, n, |g[k - 1]|)
  }

  /** The total distance every token still has to travel. */
  ghost function Distance(s: State): nat
    requires WellFormed(s)
  {
    GridDistance(s.grid, s.size, s.size)
  }

  lemma {:induction false} RowDistanceUpdate(row: seq<CellStatus>, r: int, n: int, k: int, c: int, v: CellStatus)
    requires 0 <= r < n && 0 <= k <= |row| <= n && 0 <= c < |row|
    ensures c < k ==>
      RowDistance(row[c := v], r, n, k) + CellDistance(row[c], r, c, n) ==
      RowDistance(row, r, n, k) + CellDistance(v, r, c, n)
    ensures c >= k ==> RowDistance(row[c := v], r, n, k) == RowDistance(row, r, n, k)
  {
    if k > 0 {
      RowDistanceUpdate(row, r, n, k - 1, c, v);
    }
  }

  lemma {:induction false} GridDistanceUpdate(g: Grid, n: int, k: int, r: int, c: int, v: CellStatus)
    requires 0 <= k <= |g| <= n && forall i :: 0 <= i < |g| ==> |g[i]| <= n
    requires 0 <= r < |g| && 0 <= c < |g[r]|
    ensures r < k ==>
      GridDistance(SetCell(g, r, c, v), n, k) + CellDistance(g[r][c], r, c, n) ==
      GridDistance(g, n, k) + CellDistance(v, r, c, n)
    ensures r >= k ==> GridDistance(SetCell(g, r, c, v), n, k) == GridDistance(g, n, k)
  {
    if k > 0 {
      GridDistanceUpdate(g, n, k - 1, r, c, v);
      if k - 1 == r {
        RowDistanceUpdate(g[r], r, n, |g[r]|, c, v);
      }
    }
  }

  lemma StepDistance(s: State, m: Move)
    requires Valid(s) && IsValidMove(s, m)
    ensures 1 <= Advance(m) <= 2
    ensures WellFormed(MoveToken(s, m.fromRow, m.fromCol, m.toRow, m.toCol))
    ensures Distance(SwitchPlayer(MoveToken(s, m.fromRow, m.fromCol, m.toRow, m.toCol))) ==
      Distance(s) - Advance(m)
  {
    var n := s.size;
    var mark := s.grid[m.fromRow][m.fromCol];
    var g1 := SetCell(s.grid, m.toRow, m.toCol, mark);
    GridDistanceUpdate(s.grid, n, n, m.toRow, m.toCol, mark);
    GridDistanceUpdate(g1, n, n, m.fromRow, m.fromCol, Empty);
    assert g1[m.fromRow][m.fromCol] == mark;
  }

  /**
   * The effect of a valid move stated cell by cell, without computing the
   * new grid: the successor is valid and of the same size, the turn has
   * passed, the origin is empty, the destination holds the mover's mark and
   * every other cell is as it was.
   */
  ghost predicate IsSuccessor(s: State, m: Move, t: State)
    requires Valid(s) && IsValidMove(s, m)
  {
    && Valid(t) && t.size == s.size
    && t.currentPlayer == Opponent(s.currentPlayer)
    && forall r, c {:trigger CellAt(t, r, c)} :: IsInBounds(s, r, c) ==>
         CellAt(t, r, c) == (if (r, c) == (m.fromRow, m.fromCol) then Empty
                             else if (r, c) == (m.toRow, m.toCol) then Mark(s.currentPlayer)
                             else CellAt(s, r, c))
  }

  /** The effect of a move determines the successor: at most one state has it. */
  lemma SuccessorUnique(s: State, m: Move, t: State, u: State)
    requires Valid(s) && IsValidMove(s, m)
    requires IsSuccessor(s, m, t) && IsSuccessor(s, m, u)
    ensures t == u
  {
    forall r | 0 <= r < s.size
      ensures t.grid[r] == u.grid[r]
    {
      forall c | 0 <= c < s.size
        ensures t.grid[r][c] == u.grid[r][c]
      {
        assert IsInBounds(s, r, c);
        assert CellAt(t, r, c) == CellAt(u, r, c);
      }
    }
    assert t.grid == u.grid;
    GridAndTurnDetermineState(t, u);
  }

  /** applyMove's copy has exactly that effect. */
  lemma StepIsSuccessor(s: State, m: Move)
    requires Valid(s) && IsValidMove(s, m)
    ensures IsSuccessor(s, m, Step(s, m))
  {
  }

  /**
   * The successor of a state under a valid move, known only through its
   * effect. Reasoning about the search tree uses Next rather than Step, so
   * that the grid updates are unfolded only where they are needed.
   */
  ghost function Next(s: State, m: Move): (t: State)
    requires Valid(s) && IsValidMove(s, m)
    ensures IsSuccessor(s, m, t)
    ensures 1 <= Advance(m) <= 2 && Distance(t) == Distance(s) - Advance(m)
  {
    StepIsSuccessor(s, m);
    var t :| IsSuccessor(s, m, t);
    SuccessorUnique(s, m, t, Step(s, m));
    t
  }

  /** Next is the state applyMove returns. */
  lemma NextIsStep(s: State, m: Move)
    requires Valid(s) && IsValidMove(s, m)
    ensures Next(s, m) == Step(s, m)
  {
    StepIsSuccessor(s, m);
    SuccessorUnique(s, m, Next(s, m), Step(s, m));
  }

  /**
   * applyMove (both overloads): an invalid move is an error; a valid one
   * yields the successor state and leaves the receiver as it was.
   */
  function ApplyMove(s: State, m: Move): (r: Result<State, GameError>)
    requires Valid(s)
    ensures r.Failure? <==> !IsValidMove(s, m)
    ensures r.Failure? ==> r.error == InvalidMove
    ensures r.Success? ==> r.value == Step(s, m)
  {
    if !IsValidMove(s, m) then Failure(InvalidMove) else Success(Step(s, m))
  }

  // ---------------------------------------------------------------------------
  // Win detection
  // ---------------------------------------------------------------------------

  /** Whether a token sits on its side's target line: the last row or the last column. */
  predicate OnTarget(s: State, p: Player, t: Cell) {
    if p == Player1 then t.0 == s.size - 1 else t.1 == s.size - 1
  }

  /** A side has won when every one of its tokens is on its target line. */
  predicate WonFor(s: State, p: Player) {
    forall t :: t in Tokens(s, p) ==> OnTarget(s, p, t)
  }

  /**
   * Read off the grid: Player 1 has won iff no cell off the last row holds a
   * Player 1 token, and Player 2 iff no cell off the last column holds a
   * Player 2 token.
   */
  lemma WonForOnGrid(s: State, p: Player)
    requires Valid(s)
    ensures WonFor(s, p) <==>
      forall r, c :: IsInBounds(s, r, c) && CellAt(s, r, c) == Mark(p) ==>
        (if p == Player1 then r else c) == s.size - 1
  {
    if WonFor(s, p) {
      forall r, c | IsInBounds(s, r, c) && CellAt(s, r, c) == Mark(p)
        ensures (if p == Player1 then r else c) == s.size - 1
      {
        assert (r, c) in Tokens(s, p);
        assert OnTarget(s, p, (r, c));
      }
    } else {
      var t :| t in Tokens(s, p) && !OnTarget(s, p, t);
      assert IsInBounds(s, t.0, t.1);
      assert CellAt(s, t.0, t.1) == Mark(p);
    }
  }

  /** A side whose tokens are all on the target line has no move left. */
  lemma {:induction false} WonLeavesNoMoves(s: State)
    requires Valid(s) && WonFor(s, s.currentPlayer)
    ensures MoveList(s) == []
  {
    if MoveList(s) != [] {
      var m := MoveList(s)[0];
      assert m in MoveList(s);
      ValidMoveShape(s, m);
    }
  }

  /** isWinningForPlayer: scans the side's token set, stopping at the first token off the line. */
  method IsWinningForPlayer(s: State, player: Player) returns (won: bool)
    ensures won == WonFor(s, player)
  {
    var rest := Tokens(s, player);
    while rest != {}
      invariant rest <= Tokens(s, player)
      invariant forall t :: t in Tokens(s, player) && t !in rest ==> OnTarget(s, player, t)
      decreases |rest|
    {
      var token :| token in rest;
      if !OnTarget(s, player, token) {
        return false;
      }
      rest := rest - {token};
    }
    return true;
  }

  /** isWinning: the same test for the side to move. */
  method IsWinning(s: State) returns (won: bool)
    ensures won == WonFor(s, s.currentPlayer)
  {
    won := IsWinningForPlayer(s, s.currentPlayer);
  }

  // ---------------------------------------------------------------------------
  // Equality and hashing
  // ---------------------------------------------------------------------------

  /** Move::operator==: field-by-field comparison, which is equality of moves. */
  function SameMove(a: Move, b: Move): (r: bool)
    ensures r <==> a == b
  {
    a.fromCol == b.fromCol && a.fromRow == b.fromRow && a.toCol == b.toCol && a.toRow == b.toRow
  }

  /**
   * operator==: compares grid, turn and both token sets (not the size field);
   * on well-formed states this is equality of state values, so a map keyed by
   * the state value models the source's unordered_map.
   */
  function SameState(a: State, b: State): (r: bool)
    requires WellFormed(a) && WellFormed(b)
    ensures r <==> a == b
  {
    a.grid == b.grid && a.currentPlayer == b.currentPlayer &&
    a.player1Tokens == b.player1Tokens && a.player2Tokens == b.player2Tokens
  }

  /** On valid states the token sets are redundant: grid and turn determine the state. */
  lemma GridAndTurnDetermineState(a: State, b: State)
    requires Valid(a) && Valid(b)
    requires a.grid == b.grid && a.currentPlayer == b.currentPlayer
    ensures a == b
  {
    forall t | t in a.player1Tokens ensures t in b.player1Tokens {
      assert a.grid[t.0][t.1] == Player1Token;
    }
    forall t | t in b.player1Tokens ensures t in a.player1Tokens {
      assert b.grid[t.0][t.1] == Player1Token;
    }
    forall t | t in a.player2Tokens ensures t in b.player2Tokens {
      assert a.grid[t.0][t.1] == Player2Token;
    }
    forall t | t in b.player2Tokens ensures t in a.player2Tokens {
      assert b.grid[t.0][t.1] == Player2Token;
    }
  }

  function CellCode(v: CellStatus): bv64 {
    match v
    case Empty => 0
    case Player1Token => 1
    case Player2Token => 2
  }

  function PlayerCode(p: Player): bv64 {
    if p == Player1 then 0 else 1
  }

  /** One round of the hash's bit mixing, on a 64-bit size_t. */
  function MixCell(h: bv64, v: CellStatus): bv64 {
    h ^ (CellCode(v) + 0x9e3779b9 + (h << 6) + (h >> 2))
  }

  function HashCells(h: bv64, cells: seq<CellStatus>): bv64 {
    if cells == [] then h else MixCell(HashCells(h, cells[..|cells| - 1]), cells[|cells| - 1])
  }

  function HashRows(h: bv64, g: Grid): bv64 {
    if g == [] then h else HashCells(HashRows(h, g[..|g| - 1]), g[|g| - 1])
  }

  /** The hash value, as a function of the grid and the turn alone. */
  function HashOf(g: Grid, p: Player): bv64 {
    HashRows(0, g) ^ PlayerCode(p)
  }

  /** GameStateHash: mixes every cell row by row, then the turn. */
  method GameStateHash(s: State) returns (h: bv64)
    ensures h == HashOf(s.grid, s.currentPlayer)
  {
    h := 0;
    var i := 0;
    while i < |s.grid|
      invariant 0 <= i <= |s.grid|
      invariant h == HashRows(0, s.grid[..i])
    {
      var row := s.grid[i];
      var j := 0;
      ghost var start := h;
      while j < |row|
        invariant 0 <= j <= |row|
        invariant h == HashCells(start, row[..j])
      {
        h := MixCell(h, row[j]);
        assert row[..j + 1][..j] == row[..j];
        j := j + 1;
      }
      assert row[..j] == row;
      assert s.grid[..i + 1][..i] == s.grid[..i];
      i := i + 1;
    }
    assert s.grid[..i] == s.grid;
    h := h ^ PlayerCode(s.currentPlayer);
  }

  /** States that compare equal hash equal. */
  lemma EqualStatesHashEqual(a: State, b: State)
    requires WellFormed(a) && WellFormed(b) && SameState(a, b)
    ensures HashOf(a.grid, a.currentPlayer) == HashOf(b.grid, b.currentPlayer)
  {
  }
}
