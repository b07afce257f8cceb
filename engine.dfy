/** The engine wrapper of packages/chess-engine/src/Game.ts over an abstract
    chess rules library.

    The rules library (chess.js) is not modelled: a `Rules` value is any
    behaviour it might have. A position `Fen` stands for the library's
    state: for the servers, which keep one library object per game, that
    includes the move history a repetition draw depends on. `move` answers
    None where the library rejects or throws, and otherwise the move it made
    and the position after it. */
module Engine {
  import opened Protocol

  /** A position: the library's whole state, move history included,
      named after the FEN text the library reports for it. */
  type Fen = string

  /** What the library's `move` accepts: coordinates with an optional
      promotion piece, or a SAN string. */
  datatype MoveInput =
    | Coords(from: string, to: string, promotion: Option<string>)
    | San(text: string)

  /** The move object the library returns for an accepted move. */
  datatype MoveResult = MoveResult(from: string, to: string, san: string, promotion: Option<string>)

  datatype Step = Step(result: MoveResult, next: Fen)

  /** The rules library as an oracle: the starting position, the side to
      move, move application, and the two kinds of terminal position. */
  datatype Rules = Rules(
    start: Fen,
    turn: Fen -> Turn,
    move: (Fen, MoveInput) -> Option<Step>,
    checkmate: Fen -> bool,
    drawn: Fen -> bool)

  /** The library's `isGameOver`: checkmate or a drawn position. */
  predicate IsOver(rules: Rules, pos: Fen) {
    rules.checkmate(pos) || rules.drawn(pos)
  }

  /** `getWinner` on a position: null while the game goes on, otherwise
      the colour that is not to move, whether the game was won or drawn. */
  function WinnerAt(rules: Rules, pos: Fen): (w: Option<Color>)
    ensures w.None? <==> !IsOver(rules, pos)
    ensures w.Some? ==> w.value != ColorOf(rules.turn(pos))
    ensures rules.drawn(pos) ==> w.Some?
  {
    if !IsOver(rules, pos) then None
    else if rules.turn(pos) == W then Some(Black) else Some(White)
  }

  /** What `tryMove` answers and the position it leaves behind. */
  datatype Attempt = Attempt(result: Option<MoveResult>, after: Fen)

  /** `tryMove` on a position: it never throws; it answers null exactly
      when the library rejects the move, leaving the position as it was, and
      otherwise the library's own result, with the position advanced. */
  function TryMoveAt(rules: Rules, pos: Fen, m: MoveInput): (a: Attempt)
    ensures a.result.None? <==> rules.move(pos, m).None?
    ensures a.result.None? ==> a.after == pos
    ensures a.result.Some? ==>
              a.result.value == rules.move(pos, m).value.result && a.after == rules.move(pos, m).value.next
  {
    match rules.move(pos, m)
    case None => Attempt(None, pos)
    case Some(step) => Attempt(Some(step.result), step.next)
  }

  /** The wrapper object: it owns one library board and mutates it. */
  class ChessEngine {
    const rules: Rules
    var board: Fen

    constructor (rules: Rules)
      ensures this.rules == rules && board == rules.start
    {
      this.rules := rules;
      board := rules.start;
    }

    /** `getTurn` delegates to the library's `turn`. */
    function GetTurn(): (t: Turn)
      reads this
      ensures t == rules.turn(board)
    {
      rules.turn(board)
    }

    /** `isGameOver` delegates to the library's `isGameOver`. */
    function IsGameOver(): (over: bool)
      reads this
      ensures over == IsOver(rules, board)
    {
      IsOver(rules, board)
    }

    function GetWinner(): (w: Option<Color>)
      reads this
      ensures w.None? <==> !IsGameOver()
      ensures w.Some? ==> w.value != ColorOf(GetTurn())
    {
      WinnerAt(rules, board)
    }

    method TryMove(m: MoveInput) returns (r: Option<MoveResult>)
      modifies this
      ensures r == TryMoveAt(rules, old(board), m).result
      ensures board == TryMoveAt(rules, old(board), m).after
    {
      var outcome := rules.move(board, m);
      if outcome.None? {
        r := None;
      } else {
        board := outcome.value.next;
        r := Some(outcome.value.result);
      }
    }
  }
}
