/**
 * Concrete games played through the model, each checked square by square.
 * Each game receives its list of clicks as a parameter that its precondition
 * fixes, so that the verifier follows the given steps rather than trying to
 * evaluate the whole game at once.
 */
module Scenarios {
  import opened Engine
  import opened Reachability

  /** The clicks at the given squares, in order. */
  function Clicks(squares: seq<Index>): (actions: seq<Action>)
    ensures |actions| == |squares|
    ensures forall k :: 0 <= k < |squares| ==> actions[k] == ClickAt(squares[k])
  {
    if squares == [] then [] else [ClickAt(squares[0])] + Clicks(squares[1..])
  }

  /** Playing a list of clicks is playing its first click, then the rest. */
  lemma PlayFirstClick(s: State, squares: seq<Index>)
    requires squares != []
    ensures Play(s, Clicks(squares)) == Play(Click(s, squares[0]), Clicks(squares[1..]))
  {
    assert Clicks(squares)[1..] == Clicks(squares[1..]);
  }

  /** No row, column or diagonal of `b` is uniform, each line written out. */
  predicate NoLine(b: Board) {
    && !Uniform(b, (0, 1, 2)) && !Uniform(b, (3, 4, 5)) && !Uniform(b, (6, 7, 8))
    && !Uniform(b, (0, 3, 6)) && !Uniform(b, (1, 4, 7)) && !Uniform(b, (2, 5, 8))
    && !Uniform(b, (0, 4, 8)) && !Uniform(b, (2, 4, 6))
  }

  /** A board whose eight lines, written out, are none of them uniform has no winner. */
  lemma NoLineNoWinner(b: Board)
    requires NoLine(b)
    ensures Winner(b) == Empty
  {
    forall i | 0 <= i < |Lines| ensures !Uniform(b, Lines[i]) {
      assert Lines[i] in [(0, 1, 2), (3, 4, 5), (6, 7, 8), (0, 3, 6), (1, 4, 7), (2, 5, 8), (0, 4, 8), (2, 4, 6)];
    }
  }

  /** A click on an empty square of a board with no uniform line is taken. */
  lemma OpenClick(b: Board, isXNext: bool, index: Index, b': Board)
    requires b[index] == Empty && NoLine(b)
    requires b' == b[index := Mark(isXNext)]
    ensures Click(State(b, isXNext), index) == State(b', !isXNext)
  {
    NoLineNoWinner(b);
  }

  /** A fresh game shows that X is to move. */
  lemma FreshGameStatus()
    ensures StatusText(InitialState()) == "Turn: X"
  {
  }

  /**
   * X takes the top row with clicks on 0, 4, 1, 5, 2; the status names X as the
   * winner and a further click on the empty square 3 changes nothing.
   */
  lemma TopRowWin(moves: seq<Index>)
    requires moves == [0, 4, 1, 5, 2]
    ensures var s := Play(InitialState(), Clicks(moves));
      && s.squares == [X, X, X, Empty, O, O, Empty, Empty, Empty]
      && Winner(s.squares) == X
      && StatusText(s) == "X wins!"
      && Click(s, 3) == s
  {
    var s := State(TopRowFinal, false);
    assert Play(InitialState(), Clicks(moves)) == s by {
      TopRowPlay(moves);
    }
    assert Winner(TopRowFinal) == X by {
      assert Uniform(TopRowFinal, Lines[0]);
    }
  }

  /** The board after the five clicks of the top-row game. */
  const TopRowFinal: Board := [X, X, X, Empty, O, O, Empty, Empty, Empty]

  /** The five clicks on 0, 4, 1, 5, 2 are all taken. */
  lemma TopRowPlay(moves: seq<Index>)
    requires moves == [0, 4, 1, 5, 2]
    ensures Play(InitialState(), Clicks(moves)) == State(TopRowFinal, false)
  {
    var e := Empty;
    var b0: Board := [e, e, e, e, e, e, e, e, e];
    var b1: Board := [X, e, e, e, e, e, e, e, e];
    var b2: Board := [X, e, e, e, O, e, e, e, e];
    var b3: Board := [X, X, e, e, O, e, e, e, e];
    var b4: Board := [X, X, e, e, O, O, e, e, e];
    assert InitialState() == State(b0, true);
    OpenClick(b0, true, 0, b1);
    OpenClick(b1, false, 4, b2);
    OpenClick(b2, true, 1, b3);
    OpenClick(b3, false, 5, b4);
    OpenClick(b4, true, 2, TopRowFinal);
    PlayFirstClick(State(b0, true), moves);
    PlayFirstClick(State(b1, false), moves[1..]);
    PlayFirstClick(State(b2, true), moves[2..]);
    PlayFirstClick(State(b3, false), moves[3..]);
    PlayFirstClick(State(b4, true), moves[4..]);
  }

  /** The board of the next two games after their first five clicks, and after all nine. */
  const LastMoveWinMidgame: Board := [X, O, X, O, X, Empty, Empty, Empty, Empty]
  const LastMoveWinFinal: Board := [X, O, X, O, X, X, O, O, X]
  const DrawMidgame: Board := [X, O, X, X, O, Empty, Empty, Empty, Empty]
  const DrawFinal: Board := [X, O, X, X, O, O, O, X, X]

  /** The first five clicks on 0, 1, 2, 3, 4 are all taken. */
  lemma LastMoveWinOpening(moves: seq<Index>)
    requires moves == [0, 1, 2, 3, 4, 6, 5, 7, 8]
    ensures Play(InitialState(), Clicks(moves)) == Play(State(LastMoveWinMidgame, false), Clicks(moves[5..]))
  {
    var e := Empty;
    var b0: Board := [e, e, e, e, e, e, e, e, e];
    var b1: Board := [X, e, e, e, e, e, e, e, e];
    var b2: Board := [X, O, e, e, e, e, e, e, e];
    var b3: Board := [X, O, X, e, e, e, e, e, e];
    var b4: Board := [X, O, X, O, e, e, e, e, e];
    assert InitialState() == State(b0, true);
    OpenClick(b0, true, 0, b1);
    OpenClick(b1, false, 1, b2);
    OpenClick(b2, true, 2, b3);
    OpenClick(b3, false, 3, b4);
    OpenClick(b4, true, 4, LastMoveWinMidgame);
    PlayFirstClick(State(b0, true), moves);
    PlayFirstClick(State(b1, false), moves[1..]);
    PlayFirstClick(State(b2, true), moves[2..]);
    PlayFirstClick(State(b3, false), moves[3..]);
    PlayFirstClick(State(b4, true), moves[4..]);
  }

  /** The last four clicks on 6, 5, 7, 8 are all taken and fill the board. */
  lemma LastMoveWinEnding(moves: seq<Index>)
    requires moves == [6, 5, 7, 8]
    ensures Play(State(LastMoveWinMidgame, false), Clicks(moves)) == State(LastMoveWinFinal, false)
  {
    var e := Empty;
    var b6: Board := [X, O, X, O, X, e, O, e, e];
    var b7: Board := [X, O, X, O, X, X, O, e, e];
    var b8: Board := [X, O, X, O, X, X, O, O, e];
    OpenClick(LastMoveWinMidgame, false, 6, b6);
    OpenClick(b6, true, 5, b7);
    OpenClick(b7, false, 7, b8);
    OpenClick(b8, true, 8, LastMoveWinFinal);
    PlayFirstClick(State(LastMoveWinMidgame, false), moves);
    PlayFirstClick(State(b6, true), moves[1..]);
    PlayFirstClick(State(b7, false), moves[2..]);
    PlayFirstClick(State(b8, true), moves[3..]);
  }

  /**
   * Nine clicks on 0, 1, 2, 3, 4, 6, 5, 7, 8 fill the board, but the last
   * click completes both the right column 2, 5, 8 and the diagonal 0, 4, 8
   * for X, so the game ends in a win for X and not in a draw.
   */
  lemma FullBoardWonOnLastMove(moves: seq<Index>)
    requires moves == [0, 1, 2, 3, 4, 6, 5, 7, 8]
    ensures var s := Play(InitialState(), Clicks(moves));
      && s.squares == [X, O, X, O, X, X, O, O, X]
      && Full(s.squares)
      && Uniform(s.squares, Lines[5]) && Uniform(s.squares, Lines[6])
      && Winner(s.squares) == X
      && !IsDraw(s.squares)
      && StatusText(s) == "X wins!"
  {
    LastMoveWinOpening(moves);
    LastMoveWinEnding(moves[5..]);
    LastMoveWinFinalOutcome();
  }

  /** The final board of that game is full, with X owning column 2, 5, 8 and diagonal 0, 4, 8. */
  lemma LastMoveWinFinalOutcome()
    ensures Full(LastMoveWinFinal)
    ensures Uniform(LastMoveWinFinal, Lines[5]) && Uniform(LastMoveWinFinal, Lines[6])
    ensures Winner(LastMoveWinFinal) == X && !IsDraw(LastMoveWinFinal)
    ensures StatusText(State(LastMoveWinFinal, false)) == "X wins!"
  {
    assert forall i: Index :: LastMoveWinFinal[i] != Empty;
    assert Uniform(LastMoveWinFinal, Lines[5]);
  }

  /** The first five clicks on 0, 1, 2, 4, 3 are all taken. */
  lemma DrawOpening(moves: seq<Index>)
    requires moves == [0, 1, 2, 4, 3, 5, 7, 6, 8]
    ensures Play(InitialState(), Clicks(moves)) == Play(State(DrawMidgame, false), Clicks(moves[5..]))
  {
    var e := Empty;
    var b0: Board := [e, e, e, e, e, e, e, e, e];
    var b1: Board := [X, e, e, e, e, e, e, e, e];
    var b2: Board := [X, O, e, e, e, e, e, e, e];
    var b3: Board := [X, O, X, e, e, e, e, e, e];
    var b4: Board := [X, O, X, e, O, e, e, e, e];
    assert InitialState() == State(b0, true);
    OpenClick(b0, true, 0, b1);
    OpenClick(b1, false, 1, b2);
    OpenClick(b2, true, 2, b3);
    OpenClick(b3, false, 4, b4);
    OpenClick(b4, true, 3, DrawMidgame);
    PlayFirstClick(State(b0, true), moves);
    PlayFirstClick(State(b1, false), moves[1..]);
    PlayFirstClick(State(b2, true), moves[2..]);
    PlayFirstClick(State(b3, false), moves[3..]);
    PlayFirstClick(State(b4, true), moves[4..]);
  }

  /** The last four clicks on 5, 7, 6, 8 are all taken and fill the board. */
  lemma DrawEnding(moves: seq<Index>)
    requires moves == [5, 7, 6, 8]
    ensures Play(State(DrawMidgame, false), Clicks(moves)) == State(DrawFinal, false)
  {
    var e := Empty;
    var b6: Board := [X, O, X, X, O, O, e, e, e];
    var b7: Board := [X, O, X, X, O, O, e, X, e];
    var b8: Board := [X, O, X, X, O, O, O, X, e];
    OpenClick(DrawMidgame, false, 5, b6);
    OpenClick(b6, true, 7, b7);
    OpenClick(b7, false, 6, b8);
    OpenClick(b8, true, 8, DrawFinal);
    PlayFirstClick(State(DrawMidgame, false), moves);
    PlayFirstClick(State(b6, true), moves[1..]);
    PlayFirstClick(State(b7, false), moves[2..]);
    PlayFirstClick(State(b8, true), moves[3..]);
  }

  /** Nine clicks on 0, 1, 2, 4, 3, 5, 7, 6, 8 fill the board without a line: a draw. */
  lemma DrawGame(moves: seq<Index>)
    requires moves == [0, 1, 2, 4, 3, 5, 7, 6, 8]
    ensures var s := Play(InitialState(), Clicks(moves));
      && s.squares == [X, O, X, X, O, O, O, X, X]
      && Winner(s.squares) == Empty
      && IsDraw(s.squares)
      && StatusText(s) == "Draw"
  {
    DrawOpening(moves);
    DrawEnding(moves[5..]);
    DrawFinalOutcome();
  }

  /** The final board of the drawn game is full and has no line. */
  lemma DrawFinalOutcome()
    ensures Winner(DrawFinal) == Empty && IsDraw(DrawFinal)
    ensures StatusText(State(DrawFinal, false)) == "Draw"
  {
    NoLineNoWinner(DrawFinal);
    assert Full(DrawFinal) by {
      assert forall i: Index :: DrawFinal[i] != Empty;
    }
  }

  /** When two lines are uniform, the one listed first decides: here the top row of X beats the bottom row of O. */
  lemma FirstListedLineDecides()
    ensures Winner([X, X, X, Empty, Empty, Empty, O, O, O]) == X
  {
    assert Uniform([X, X, X, Empty, Empty, Empty, O, O, O], Lines[0]);
  }
}
