/** The older session of backend1/src/game.ts. It talks to the rules
    library directly, drops an illegal move without a word, names the side
    not to move as winner, and echoes the submitted move. */
module LegacySession {
  import opened Protocol
  import opened Engine
  import Session

  /** The echoed `move` payload: exactly the submitted {from, to}. */
  function Echo(mv: MovePayload): MoveBody {
    MoveFields(mv.from, mv.to, None, None)
  }

  /** The winner backend1 computes after a terminal move: the side that is
      not to move in the new position. It is the side that just moved
      whenever the move passed the turn (GameOverNamesMover). */
  function MoverWins(rules: Rules, pos: Fen): (c: Color)
    ensures c == Opposite(ColorOf(rules.turn(pos)))
  {
    if rules.turn(pos) == W then Black else White
  }

  /** `makeMove` of backend1. */
  function MakeMoveAt(rules: Rules, p1: Socket, p2: Socket, board: Fen, s: Socket, mv: MovePayload): (r: Session.Outcome)
    // out of turn or not a player: nothing happens
    ensures !Session.MayMove(rules, p1, p2, board, s) ==> r == Session.Outcome(board, [])
    // the library throws: nothing is sent to anyone, the board stays
    ensures rules.move(board, Session.Submitted(mv)).None? ==> r == Session.Outcome(board, [])
    // accepted: the new position, and one identical message to each player
    ensures Session.MayMove(rules, p1, p2, board, s) && rules.move(board, Session.Submitted(mv)).Some? ==>
              var next := rules.move(board, Session.Submitted(mv)).value.next;
              && r.board == next
              && |r.out| == 2 && r.out[0].to == p1 && r.out[1].to == p2 && r.out[0].msg == r.out[1].msg
              && (IsOver(rules, next) ==> r.out[0].msg == GameOver(Some(MoverWins(rules, next))))
              && (!IsOver(rules, next) ==> r.out[0].msg == Move(Echo(mv)))
    ensures forall i :: 0 <= i < |r.out| ==> !r.out[i].msg.InvalidMove?
    ensures p1 != p2 ==> forall x :: |Inbox(r.out, x)| <= 1
  {
    if rules.turn(board) == W && s != p1 then Session.Outcome(board, [])
    else if rules.turn(board) == B && s != p2 then Session.Outcome(board, [])
    else match rules.move(board, Session.Submitted(mv))
      case None => Session.Outcome(board, [])
      case Some(step) =>
        if IsOver(rules, step.next) then
          Session.Outcome(step.next, Broadcast(p1, p2, GameOver(Some(MoverWins(rules, step.next)))))
        else
          Session.Outcome(step.next, Broadcast(p1, p2, Move(Echo(mv))))
  }

  class Game {
    const player1: Socket
    const player2: Socket
    const rules: Rules
    const net: Transport
    var board: Fen

    constructor (player1: Socket, player2: Socket, rules: Rules, net: Transport)
      modifies net
      ensures this.player1 == player1 && this.player2 == player2 && this.rules == rules && this.net == net
      ensures board == rules.start
      ensures net.sent == old(net.sent) + Session.StartMessages(player1, player2)
    {
      this.player1 := player1;
      this.player2 := player2;
      this.rules := rules;
      this.net := net;
      board := rules.start;
      new;
      net.Send(player1, InitGame(White));
      net.Send(player2, InitGame(Black));
    }

    method MakeMove(s: Socket, mv: MovePayload)
      modifies this, net
      ensures board == MakeMoveAt(rules, player1, player2, old(board), s, mv).board
      ensures net.sent == old(net.sent) + MakeMoveAt(rules, player1, player2, old(board), s, mv).out
    {
      if rules.turn(board) == W && s != player1 {
        return;
      }
      if rules.turn(board) == B && s != player2 {
        return;
      }
      var outcome := rules.move(board, Session.Submitted(mv));
      if outcome.None? {
        return;
      }
      board := outcome.value.next;
      if IsOver(rules, board) {
        var winner := if rules.turn(board) == W then Black else White;
        net.Send(player1, GameOver(Some(winner)));
        net.Send(player2, GameOver(Some(winner)));
        return;
      }
      var moveMsg := Move(Echo(mv));
      net.Send(player1, moveMsg);
      net.Send(player2, moveMsg);
    }
  }

  /** The two sessions always leave the same position behind. */
  lemma SameBoard(rules: Rules, p1: Socket, p2: Socket, board: Fen, s: Socket, mv: MovePayload)
    ensures MakeMoveAt(rules, p1, p2, board, s, mv).board == Session.MakeMoveAt(rules, p1, p2, board, s, mv).board
  {
  }

  /** They agree on `game_over`: the engine wrapper's `getWinner` and the
      inline "side not to move" computation give the same winner. */
  lemma SameGameOver(rules: Rules, p1: Socket, p2: Socket, board: Fen, s: Socket, mv: MovePayload)
    requires Session.MayMove(rules, p1, p2, board, s)
    requires rules.move(board, Session.Submitted(mv)).Some?
    requires IsOver(rules, rules.move(board, Session.Submitted(mv)).value.next)
    ensures MakeMoveAt(rules, p1, p2, board, s, mv).out == Session.MakeMoveAt(rules, p1, p2, board, s, mv).out
  {
  }

  /** They differ on a rejected move: the ws-server answers the sender
      with `invalid_move`, backend1 sends nothing. */
  lemma RejectionDiffers(rules: Rules, p1: Socket, p2: Socket, board: Fen, s: Socket, mv: MovePayload)
    requires Session.MayMove(rules, p1, p2, board, s)
    requires rules.move(board, Session.Submitted(mv)).None?
    ensures MakeMoveAt(rules, p1, p2, board, s, mv).out == []
    ensures Session.MakeMoveAt(rules, p1, p2, board, s, mv).out == [Delivery(s, InvalidMove(InvalidMoveText, mv))]
  {
  }

  /** When the accepted move passes the turn, as a legal chess move does,
      the `game_over` of either server names the colour of the sender, so
      on a draw the mover is declared the winner. */
  lemma GameOverNamesMover(rules: Rules, p1: Socket, p2: Socket, board: Fen, s: Socket, mv: MovePayload)
    requires Session.MayMove(rules, p1, p2, board, s)
    requires rules.move(board, Session.Submitted(mv)).Some?
    requires IsOver(rules, rules.move(board, Session.Submitted(mv)).value.next)
    requires rules.turn(rules.move(board, Session.Submitted(mv)).value.next) != rules.turn(board)
    ensures (ColorOf(rules.turn(board)) == White ==> s == p1) && (ColorOf(rules.turn(board)) == Black ==> s == p2)
    ensures MakeMoveAt(rules, p1, p2, board, s, mv).out[0].msg == GameOver(Some(ColorOf(rules.turn(board))))
    ensures Session.MakeMoveAt(rules, p1, p2, board, s, mv).out[0].msg == GameOver(Some(ColorOf(rules.turn(board))))
  {
  }
}
