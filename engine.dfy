/**
 * The Tic Tac Toe engine of App.js: the board, the eight winning lines,
 * winner and draw detection, the status line, and the two transitions of
 * the game state (a click on a square and a restart) as pure functions.
 */
module Engine {

  /** One square of the board; `Empty` stands for the `null` of a fresh square. */
  datatype Cell = Empty | X | O

  /** A position on the board, row-major: row 0 is 0, 1, 2. */
  type Index = i: nat | i < 9

  /** The board always has exactly nine squares. */
  type Board = b: seq<Cell> | |b| == 9 witness [Empty, Empty, Empty, Empty, Empty, Empty, Empty, Empty, Empty]

  /** Three positions that win when they hold the same mark. */
  type Line = (Index, Index, Index)

  /** The eight winning lines, in the order they are scanned: rows, columns, diagonals. */
  const Lines: seq<Line> := [
    (0, 1, 2), (3, 4, 5), (6, 7, 8),
    (0, 3, 6), (1, 4, 7), (2, 5, 8),
    (0, 4, 8), (2, 4, 6)
  ]

  /**
   * The lines are the three rows top to bottom, the three columns left to
   * right, then the two diagonals, and no line is listed twice.
   */
  lemma LinesInScanOrder()
    ensures |Lines| == 8
    ensures forall r :: 0 <= r < 3 ==> Lines[r] == (3 * r, 3 * r + 1, 3 * r + 2)
    ensures forall c :: 3 <= c < 6 ==> Lines[c] == (c - 3, c, c + 3)
    ensures Lines[6] == (0, 4, 8) && Lines[7] == (2, 4, 6)
    ensures forall i, j :: 0 <= i < j < |Lines| ==> Lines[i] != Lines[j]
  {
  }

  /** Nine empty squares. */
  const EmptyBoard: Board := [Empty, Empty, Empty, Empty, Empty, Empty, Empty, Empty, Empty]

  /** The test made for each line: its first square is filled and all three agree. */
  predicate Uniform(b: Board, l: Line): (u: bool)
    ensures u <==> (b[l.0] == X && b[l.1] == X && b[l.2] == X) || (b[l.0] == O && b[l.1] == O && b[l.2] == O)
  {
    b[l.0] != Empty && b[l.0] == b[l.1] && b[l.0] == b[l.2]
  }

  /** Some winning line is filled with mark `c` throughout. */
  predicate HasLine(b: Board, c: Cell) {
    exists i :: 0 <= i < |Lines| && Uniform(b, Lines[i]) && b[Lines[i].0] == c
  }

  /** Every square is filled. */
  predicate Full(b: Board) {
    forall i: Index :: b[i] != Empty
  }

  /**
   * The scan of `Lines` from position `k` on: the mark of the first uniform
   * line, or `Empty` when none of them is uniform.
   */
  function WinnerFrom(b: Board, k: nat): (w: Cell)
    requires k <= |Lines|
    ensures w != Empty <==> exists i :: k <= i < |Lines| && Uniform(b, Lines[i])
    ensures w != Empty ==>
      exists i :: k <= i < |Lines| && Uniform(b, Lines[i]) && w == b[Lines[i].0] &&
        forall j :: k <= j < i ==> !Uniform(b, Lines[j])
    decreases |Lines| - k
  {
    if k == |Lines| then Empty
    else if Uniform(b, Lines[k]) then b[Lines[k].0]
    else WinnerFrom(b, k + 1)
  }

  /**
   * The winner of a board: the mark of the first uniform line in the order of
   * `Lines`, or `Empty` when no line is uniform.
   */
  function Winner(b: Board): (w: Cell)
    ensures w == Empty <==> forall i :: 0 <= i < |Lines| ==> !Uniform(b, Lines[i])
    ensures w == Empty <==> !HasLine(b, X) && !HasLine(b, O)
    ensures w != Empty ==> HasLine(b, w)
    ensures w != Empty ==>
      exists i :: 0 <= i < |Lines| && Uniform(b, Lines[i]) && w == b[Lines[i].0] &&
        forall j :: 0 <= j < i ==> !Uniform(b, Lines[j])
  {
    WinnerFrom(b, 0)
  }

  /** The scan itself, a loop over `Lines` that returns at the first uniform line. */
  method CalculateWinner(squares: Board) returns (w: Cell)
    ensures w == Winner(squares)
    ensures w != Empty ==> exists i :: 0 <= i < |Lines| && Uniform(squares, Lines[i]) && w == squares[Lines[i].0]
    ensures w == Empty ==> forall i :: 0 <= i < |Lines| ==> !Uniform(squares, Lines[i])
  {
    for k := 0 to |Lines|
      invariant forall j :: 0 <= j < k ==> !Uniform(squares, Lines[j])
    {
      var (a, b, c) := Lines[k];
      if squares[a] != Empty && squares[a] == squares[b] && squares[a] == squares[c] {
        assert Uniform(squares, Lines[k]);
        return squares[a];
      }
    }
    return Empty;
  }

  /**
   * A draw: every square is filled and there is no winner; that is, a full
   * board none of whose lines is uniform. A full board with a line is a win.
   */
  predicate IsDraw(b: Board): (d: bool)
    ensures d <==> Full(b) && forall i :: 0 <= i < |Lines| ==> !Uniform(b, Lines[i])
    ensures Full(b) && (HasLine(b, X) || HasLine(b, O)) ==> !d
  {
    Full(b) && Winner(b) == Empty
  }

  /** The mark placed by the player to move. */
  function Mark(isXNext: bool): (c: Cell)
    ensures c != Empty
    ensures c == X <==> isXNext
  {
    if isXNext then X else O
  }

  /** The game state: the board and whose turn it is. */
  datatype State = State(squares: Board, isXNext: bool)

  /** The state at start and after a restart: nine empty squares, X to move. */
  function InitialState(): (s: State)
    ensures forall i: Index :: s.squares[i] == Empty
    ensures s.isXNext
    ensures Winner(s.squares) == Empty && !IsDraw(s.squares)
  {
    assert !Full(EmptyBoard) by { assert EmptyBoard[0] == Empty; }
    State(EmptyBoard, true)
  }

  /**
   * A click on square `index` is taken when that square is empty and nobody
   * has won, that is, when neither X nor O owns a line.
   */
  predicate Accepts(s: State, index: Index): (a: bool)
    ensures a <==> s.squares[index] == Empty && !HasLine(s.squares, X) && !HasLine(s.squares, O)
  {
    s.squares[index] == Empty && Winner(s.squares) == Empty
  }

  /**
   * A click on square `index`: a rejected click changes nothing; an accepted
   * one writes the mover's mark into that square only and passes the turn.
   */
  function Click(s: State, index: Index): (r: State)
    ensures !Accepts(s, index) ==> r == s
    ensures Accepts(s, index) <==> r != s
    ensures forall i: Index :: i != index ==> r.squares[i] == s.squares[i]
    ensures r.squares[index] == if Accepts(s, index) then Mark(s.isXNext) else s.squares[index]
    ensures r.isXNext == (s.isXNext != Accepts(s, index))
  {
    if s.squares[index] != Empty || Winner(s.squares) != Empty then s
    else State(s.squares[index := Mark(s.isXNext)], !s.isXNext)
  }

  /** The game is over: someone has won, or it is a draw. */
  predicate Decided(s: State) {
    Winner(s.squares) != Empty || IsDraw(s.squares)
  }

  /** Once the game is decided no click is taken, and while it is not, some click is. */
  lemma DecidedIffNoMoveAccepted(s: State)
    ensures Decided(s) <==> forall i: Index :: Click(s, i) == s
  {
    if !Decided(s) {
      assert !Full(s.squares);
      var i: Index :| s.squares[i] == Empty;
      assert Click(s, i) != s;
    }
  }

  /** The text shown for a mark in the status line: one letter for X or O, told apart. */
  function Symbol(c: Cell): (t: string)
    ensures c != Empty ==> |t| == 1
    ensures c != Empty ==> (t == "X" <==> c == X) && (t == "O" <==> c == O)
  {
    match c
    case X => "X"
    case O => "O"
    case Empty => ""
  }

  /**
   * The status line: a winner comes first, then a draw, then whose turn it is.
   * Each of the five texts is shown exactly in its own situation.
   */
  function StatusText(s: State): (t: string)
    ensures t == "X wins!" <==> Winner(s.squares) == X
    ensures t == "O wins!" <==> Winner(s.squares) == O
    ensures t == "Draw" <==> IsDraw(s.squares)
    ensures t == "Turn: X" <==> !Decided(s) && s.isXNext
    ensures t == "Turn: O" <==> !Decided(s) && !s.isXNext
  {
    var w := Winner(s.squares);
    if w != Empty then
      var won := Symbol(w) + " wins!";
      assert won[0] == Symbol(w)[0] && |won| == 7;
      won
    else if IsDraw(s.squares) then "Draw"
    else
      var turn := "Turn: " + Symbol(Mark(s.isXNext));
      assert turn[0] == 'T' && turn[6] == Symbol(Mark(s.isXNext))[0];
      turn
  }
}
