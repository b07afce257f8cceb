/** The session of apps/ws-server/src/game.ts: one match between two
    sockets, player1 white and player2 black, with one engine wrapper as
    the authority over the position. */
module Session {
  import opened Protocol
  import opened Engine

  /** The position a call leaves and the messages it sends, in order. */
  datatype Outcome = Outcome(board: Fen, out: seq<Delivery>)

  /** The constructor's two `init_game` messages. */
  function StartMessages(p1: Socket, p2: Socket): (out: seq<Delivery>)
    ensures p1 != p2 ==> Inbox(out, p1) == [InitGame(White)] && Inbox(out, p2) == [InitGame(Black)]
    ensures p1 == p2 ==> Inbox(out, p1) == [InitGame(White), InitGame(Black)]
    ensures forall x :: x != p1 && x != p2 ==> Inbox(out, x) == []
  {
    var out := [Delivery(p1, InitGame(White)), Delivery(p2, InitGame(Black))];
    assert out[1..] == [Delivery(p2, InitGame(Black))];
    assert out[1..][1..] == [];
    out
  }

  /** The turn guard: white moves may come only from player1 and black
      moves only from player2. */
  predicate MayMove(rules: Rules, p1: Socket, p2: Socket, board: Fen, s: Socket): (ok: bool)
    ensures ok <==> s == (if rules.turn(board) == W then p1 else p2)
  {
    !(rules.turn(board) == W && s != p1) && !(rules.turn(board) == B && s != p2)
  }

  /** The client's {from, to} handed to the engine; no promotion piece. */
  function Submitted(mv: MovePayload): MoveInput {
    Coords(mv.from, mv.to, None)
  }

  /** The `move` payload built from the engine's result. */
  function Announce(r: MoveResult): MoveBody {
    MoveFields(r.from, r.to, Some(r.san), r.promotion)
  }

  /** `makeMove`. */
  function MakeMoveAt(rules: Rules, p1: Socket, p2: Socket, board: Fen, s: Socket, mv: MovePayload): (r: Outcome)
    // out of turn or not a player: nothing is sent and the engine is untouched
    ensures !MayMove(rules, p1, p2, board, s) ==> r == Outcome(board, [])
    // rejected by the engine: the sender alone hears of it, with its own move
    ensures MayMove(rules, p1, p2, board, s) && rules.move(board, Submitted(mv)).None? ==>
              r.board == board && r.out == [Delivery(s, InvalidMove(InvalidMoveText, mv))]
    // accepted: the engine's new position, and one message to each player
    ensures MayMove(rules, p1, p2, board, s) && rules.move(board, Submitted(mv)).Some? ==>
              var step := rules.move(board, Submitted(mv)).value;
              && r.board == step.next
              && |r.out| == 2 && r.out[0].to == p1 && r.out[1].to == p2 && r.out[0].msg == r.out[1].msg
              && (IsOver(rules, step.next) ==> r.out[0].msg == GameOver(WinnerAt(rules, step.next)))
              && (!IsOver(rules, step.next) ==> r.out[0].msg == Move(Announce(step.result)))
    // a terminal move is never broadcast as a move
    ensures forall i :: 0 <= i < |r.out| && r.out[i].msg.Move? ==> !IsOver(rules, r.board)
    // `getWinner` is asked only once the game is over, so it never answers null here
    ensures forall i :: 0 <= i < |r.out| && r.out[i].msg.GameOver? ==> r.out[i].msg.winner.Some?
    // every message goes to a player, and no player gets more than one
    ensures forall i :: 0 <= i < |r.out| ==> r.out[i].to == p1 || r.out[i].to == p2
    ensures p1 != p2 ==> forall x :: |Inbox(r.out, x)| <= 1
  {
    if rules.turn(board) == W && s != p1 then Outcome(board, [])
    else if rules.turn(board) == B && s != p2 then Outcome(board, [])
    else
      var attempt := TryMoveAt(rules, board, Submitted(mv));
      if attempt.result.None? then
        var out := [Delivery(s, InvalidMove(InvalidMoveText, mv))];
        assert out[1..] == [];
        Outcome(board, out)
      else if IsOver(rules, attempt.after) then
        Outcome(attempt.after, Broadcast(p1, p2, GameOver(WinnerAt(rules, attempt.after))))
      else
        Outcome(attempt.after, Broadcast(p1, p2, Move(Announce(attempt.result.value))))
  }

  class Game {
    const player1: Socket
    const player2: Socket
    const engine: ChessEngine
    const net: Transport

    /** Colours are fixed here: player1 is told white, player2 black. */
    constructor (player1: Socket, player2: Socket, rules: Rules, net: Transport)
      modifies net
      ensures this.player1 == player1 && this.player2 == player2 && this.net == net
      ensures fresh(engine) && engine.rules == rules && engine.board == rules.start
      ensures net.sent == old(net.sent) + StartMessages(player1, player2)
    {
      this.player1 := player1;
      this.player2 := player2;
      this.net := net;
      this.engine := new ChessEngine(rules);
      new;
      net.Send(player1, InitGame(White));
      net.Send(player2, InitGame(Black));
    }

    method MakeMove(s: Socket, mv: MovePayload)
      modifies engine, net
      ensures engine.board == MakeMoveAt(engine.rules, player1, player2, old(engine.board), s, mv).board
      ensures net.sent == old(net.sent) + MakeMoveAt(engine.rules, player1, player2, old(engine.board), s, mv).out
    {
      if engine.GetTurn() == W && s != player1 {
        return;
      }
      if engine.GetTurn() == B && s != player2 {
        return;
      }
      var moveResult := engine.TryMove(Submitted(mv));
      if moveResult.None? {
        net.Send(s, InvalidMove(InvalidMoveText, mv));
        return;
      }
      if engine.IsGameOver() {
        var winner := engine.GetWinner();
        net.Send(player1, GameOver(winner));
        net.Send(player2, GameOver(winner));
        return;
      }
      var body := Announce(moveResult.value);
      net.Send(player1, Move(body));
      net.Send(player2, Move(body));
    }
  }
}
