/**
 * The component state of App.js: the nine squares and the turn flag, updated
 * in place by a click on a square and by the restart button.
 */
module App {
  import opened Engine
  import opened Reachability

  class Game {
    var squares: Board
    var isXNext: bool

    /** The current state as a value. */
    function Snapshot(): State
      reads this
    {
      State(squares, isXNext)
    }

    /** The object invariant: the current state is one the game can reach. */
    ghost predicate Valid()
      reads this
    {
      Invariant(Snapshot())
    }

    /** A new game: nine empty squares, X to move. */
    constructor ()
      ensures Valid()
      ensures Snapshot() == InitialState()
      ensures forall i: Index :: squares[i] == Empty
      ensures isXNext
    {
      squares := EmptyBoard;
      isXNext := true;
      RestartEstablishesInvariant();
    }

    /**
     * A click on square `index`. When the square is taken or someone has
     * already won, nothing changes. Otherwise the mover's mark goes into that
     * square, every other square keeps its content, and the turn passes.
     */
    method HandleSquareClick(index: Index)
      requires Valid()
      modifies this
      ensures Valid()
      ensures Snapshot() == Click(old(Snapshot()), index)
      ensures old(squares[index] != Empty || Winner(squares) != Empty) ==>
        squares == old(squares) && isXNext == old(isXNext)
      ensures old(squares[index] == Empty && Winner(squares) == Empty) ==>
        && squares[index] == Mark(old(isXNext))
        && (forall i: Index :: i != index ==> squares[i] == old(squares[i]))
        && isXNext == !old(isXNext)
    {
      ghost var before := Snapshot();
      var winner := CalculateWinner(squares);
      if squares[index] != Empty || winner != Empty {
        return;
      }
      var next := squares;
      next := next[index := if isXNext then X else O];
      squares := next;
      isXNext := !isXNext;
      ClickPreservesInvariant(before, index);
    }

    /** The restart button: nine empty squares and X to move, whatever the game was. */
    method Restart()
      modifies this
      ensures Valid()
      ensures Snapshot() == InitialState()
      ensures forall i: Index :: squares[i] == Empty
      ensures isXNext
    {
      squares := EmptyBoard;
      isXNext := true;
      RestartEstablishesInvariant();
    }
  }
}
