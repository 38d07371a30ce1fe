/**
 * What holds of every state the game can reach from its initial state
 * through clicks and restarts: X has made as many moves as O, or one more,
 * according to whose turn it is; only the player who moved last can own a
 * line; and a full board has five X and four O with O to move.
 */
module Reachability {
  import opened Engine

  /** The number of squares of `b` holding `c`. */
  function Count(b: seq<Cell>, c: Cell): nat {
    if b == [] then 0 else (if b[0] == c then 1 else 0) + Count(b[1..], c)
  }

  /** Every square holds exactly one of the three values. */
  lemma {:induction false} CountsAddUp(b: seq<Cell>)
    ensures Count(b, X) + Count(b, O) + Count(b, Empty) == |b|
  {
    if b != [] {
      CountsAddUp(b[1..]);
    }
  }

  /** No square is empty exactly when no square counts as `Empty`. */
  lemma {:induction false} NoEmptyCount(b: seq<Cell>)
    ensures Count(b, Empty) == 0 <==> forall i :: 0 <= i < |b| ==> b[i] != Empty
  {
    if b != [] {
      NoEmptyCount(b[1..]);
      assert forall i :: 1 <= i < |b| ==> b[i] == b[1..][i - 1];
    }
  }

  /** Filling one empty square with mark `m` adds one `m` and leaves the other marks' counts alone. */
  lemma {:induction false} CountAfterFill(b: seq<Cell>, i: nat, m: Cell, c: Cell)
    requires i < |b| && b[i] == Empty && m != Empty
    ensures Count(b[i := m], c) == if c == m then Count(b, c) + 1 else if c == Empty then Count(b, c) - 1 else Count(b, c)
  {
    if i == 0 {
      assert b[i := m][1..] == b[1..];
    } else {
      assert b[i := m][1..] == b[1..][i - 1 := m];
      CountAfterFill(b[1..], i - 1, m, c);
    }
  }

  /** The player who made the last move: X when it is O's turn. */
  function LastMover(s: State): (c: Cell)
    ensures c != Empty && c != Mark(s.isXNext)
  {
    if s.isXNext then O else X
  }

  /**
   * The invariant of reachable states: X leads O by one mark exactly when it
   * is O's turn, and a line can only belong to the player who moved last.
   */
  predicate Invariant(s: State) {
    && Count(s.squares, X) == Count(s.squares, O) + (if s.isXNext then 0 else 1)
    && (HasLine(s.squares, X) ==> LastMover(s) == X)
    && (HasLine(s.squares, O) ==> LastMover(s) == O)
  }

  /** A fresh game satisfies the invariant. */
  lemma RestartEstablishesInvariant()
    ensures Invariant(InitialState())
  {
  }

  /**
   * On a board without a uniform line, filling one square with `m` can only
   * create lines of `m`.
   */
  lemma NewLinesBelongToMover(b: Board, index: Index, m: Cell, c: Cell)
    requires Winner(b) == Empty && m != Empty
    requires HasLine(b[index := m], c)
    ensures c == m
  {
    var b' := b[index := m];
    var i :| 0 <= i < |Lines| && Uniform(b', Lines[i]) && b'[Lines[i].0] == c;
    var l := Lines[i];
    if index != l.0 && index != l.1 && index != l.2 {
      assert false;
    }
  }

  /** Every click, taken or not, keeps the invariant. */
  lemma ClickPreservesInvariant(s: State, index: Index)
    requires Invariant(s)
    ensures Invariant(Click(s, index))
  {
    if Accepts(s, index) {
      var r := Click(s, index);
      var m := Mark(s.isXNext);
      assert r.squares == s.squares[index := m];
      CountAfterFill(s.squares, index, m, X);
      CountAfterFill(s.squares, index, m, O);
      if HasLine(r.squares, X) {
        NewLinesBelongToMover(s.squares, index, m, X);
      }
      if HasLine(r.squares, O) {
        NewLinesBelongToMover(s.squares, index, m, O);
      }
    }
  }

  /** The two user actions on the game state. */
  datatype Action = ClickAt(index: Index) | RestartGame

  /** The state after one action. */
  function Step(s: State, a: Action): State {
    match a
    case ClickAt(i) => Click(s, i)
    case RestartGame => InitialState()
  }

  /** The state after a sequence of actions, applied in order. */
  function Play(s: State, actions: seq<Action>): State
    decreases |actions|
  {
    if actions == [] then s else Play(Step(s, actions[0]), actions[1..])
  }

  /** Every state reachable from a state that satisfies the invariant satisfies it too. */
  lemma {:induction false} PlayPreservesInvariant(s: State, actions: seq<Action>)
    requires Invariant(s)
    ensures Invariant(Play(s, actions))
    decreases |actions|
  {
    if actions != [] {
      match actions[0] {
        case ClickAt(i) => ClickPreservesInvariant(s, i);
        case RestartGame => RestartEstablishesInvariant();
      }
      PlayPreservesInvariant(Step(s, actions[0]), actions[1..]);
    }
  }

  /** The invariant holds in every state reachable from the start of the game. */
  lemma ReachableStatesAreValid(actions: seq<Action>)
    ensures Invariant(Play(InitialState(), actions))
  {
    RestartEstablishesInvariant();
    PlayPreservesInvariant(InitialState(), actions);
  }

  /** The number of marks on the board. */
  function Marks(b: Board): nat {
    Count(b, X) + Count(b, O)
  }

  /** An accepted click adds exactly one mark; a rejected one adds none. */
  lemma ClickAddsOneMark(s: State, index: Index)
    ensures Marks(Click(s, index).squares) == Marks(s.squares) + if Accepts(s, index) then 1 else 0
  {
    if Accepts(s, index) {
      assert Click(s, index).squares == s.squares[index := Mark(s.isXNext)];
      CountAfterFill(s.squares, index, Mark(s.isXNext), X);
      CountAfterFill(s.squares, index, Mark(s.isXNext), O);
    }
  }

  /** Turns alternate strictly: in a reachable state X is to move exactly when an even number of moves was made. */
  lemma TurnParity(s: State)
    requires Invariant(s)
    ensures s.isXNext <==> Marks(s.squares) % 2 == 0
  {
  }

  /** In a reachable state a winner is always the player who moved last, so X and O never both own a line. */
  lemma WinnerMovedLast(s: State)
    requires Invariant(s)
    ensures Winner(s.squares) != Empty ==> Winner(s.squares) == LastMover(s)
    ensures !(HasLine(s.squares, X) && HasLine(s.squares, O))
  {
  }

  /** A full reachable board holds five X and four O, with O to move; so every draw ends on X's move. */
  lemma FullBoardCounts(s: State)
    requires Invariant(s) && Full(s.squares)
    ensures Count(s.squares, X) == 5 && Count(s.squares, O) == 4 && !s.isXNext
  {
    CountsAddUp(s.squares);
    NoEmptyCount(s.squares);
    assert forall i :: 0 <= i < |s.squares| ==> s.squares[i] != Empty by {
      forall i | 0 <= i < |s.squares| ensures s.squares[i] != Empty {
        var k: Index := i;
        assert s.squares[k] != Empty;
      }
    }
  }
}
