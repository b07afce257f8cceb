/** The game-state logic of the web client, apps/web/hooks/useChessGame.ts:
    the reducer run on each server message, `makeMove`, `resetGame` and the
    derived `isMyTurn`. Rendering and the socket's own lifecycle are not
    part of this model. */
module ClientGame {
  import opened Protocol
  import opened Engine

  datatype Status = Waiting | Playing | Finished

  /** `GameState`; `chess` is the board's position. */
  datatype GameState = GameState(board: Fen, playerColor: Option<Color>, status: Status, turn: Turn, winner: Option<Color>)

  /** The state the hook starts in and `resetGame` returns to. */
  function InitialState(rules: Rules): (st: GameState)
    ensures st.board == rules.start
    ensures st.playerColor.None? && st.status == Waiting && st.turn == W && st.winner.None?
  {
    GameState(rules.start, None, Waiting, W, None)
  }

  /** What the reducer hands the engine for an incoming `move`: a string
      payload as SAN, an object as from/to with its promotion piece, where
      a missing or empty one becomes a queen. */
  function Incoming(body: MoveBody): (m: MoveInput)
    ensures body.MoveText? ==> m == San(body.text)
    ensures body.MoveFields? ==> m.Coords? && m.from == body.from && m.to == body.to
    ensures body.MoveFields? && body.promotion.Some? && body.promotion.value != "" ==>
              m.promotion == body.promotion
    ensures body.MoveFields? && (body.promotion.None? || body.promotion.value == "") ==>
              m.promotion == Some("q")
  {
    match body
    case MoveText(text) => San(text)
    case MoveFields(from, to, _, promotion) =>
      var piece := if promotion.Some? && promotion.value != "" then promotion.value else "q";
      Coords(from, to, Some(piece))
  }

  /** The message handler: one `setGameState(prev => next)` per message. */
  function Reduce(rules: Rules, prev: GameState, msg: ServerMessage): (next: GameState)
    // init_game: the colour and `playing`; board, turn and winner stay
    ensures msg.InitGame? ==>
              next == prev.(playerColor := Some(msg.color), status := Playing)
    // game_over: `finished` and the winner; the board stays
    ensures msg.GameOver? ==>
              next == prev.(status := Finished, winner := msg.winner)
    // move: only board and turn can change
    ensures msg.Move? ==>
              next.playerColor == prev.playerColor && next.status == prev.status && next.winner == prev.winner
    ensures msg.Move? && rules.move(prev.board, Incoming(msg.payload)).None? ==> next == prev
    ensures msg.Move? && rules.move(prev.board, Incoming(msg.payload)).Some? ==>
              var after := rules.move(prev.board, Incoming(msg.payload)).value.next;
              next.board == after && next.turn == rules.turn(after)
    // the other messages have no case
    ensures msg.OpponentLeft? || msg.InvalidMove? ==> next == prev
  {
    match msg
    case InitGame(color) => prev.(playerColor := Some(color), status := Playing)
    case Move(payload) =>
      (match rules.move(prev.board, Incoming(payload))
       case None => prev
       case Some(step) => prev.(board := step.next, turn := rules.turn(step.next)))
    case GameOver(winner) => prev.(status := Finished, winner := winner)
    case OpponentLeft(_) => prev
    case InvalidMove(_, _) => prev
  }

  /** `isMyTurn`. */
  predicate IsMyTurn(st: GameState)
    ensures IsMyTurn(st) <==> st.playerColor == Some(ColorOf(st.turn))
  {
    st.playerColor != None &&
    ((st.playerColor == Some(White) && st.turn == W) || (st.playerColor == Some(Black) && st.turn == B))
  }

  /** The client's `turn` agrees with its board. */
  predicate TurnInSync(rules: Rules, st: GameState) {
    st.turn == rules.turn(st.board)
  }

  /** Every message keeps `turn` in step with the board. */
  lemma ReducePreservesSync(rules: Rules, prev: GameState, msg: ServerMessage)
    requires TurnInSync(rules, prev)
    ensures TurnInSync(rules, Reduce(rules, prev, msg))
  {
  }

  /** When the rules start with white to move, the initial state is in
      step with its board. */
  lemma InitialInSync(rules: Rules)
    requires rules.turn(rules.start) == W
    ensures TurnInSync(rules, InitialState(rules))
  {
  }

  /** Once finished, only a new `init_game` leaves the finished status. */
  lemma FinishedStays(rules: Rules, prev: GameState, msg: ServerMessage)
    requires prev.status == Finished && !msg.InitGame?
    ensures Reduce(rules, prev, msg).status == Finished
  {
  }

  /** The hook's state and what it has sent on its socket. */
  class ChessGameHook {
    const rules: Rules
    var state: GameState
    var sent: seq<ClientMessage>

    constructor (rules: Rules)
      ensures this.rules == rules && state == InitialState(rules) && sent == []
    {
      this.rules := rules;
      state := InitialState(rules);
      sent := [];
    }

    method OnMessage(msg: ServerMessage)
      modifies this
      ensures state == Reduce(rules, old(state), msg) && sent == old(sent)
    {
      state := Reduce(rules, state, msg);
    }

    /** `makeMove`: the move is tried on the current board in place with a
        queen as promotion piece; if it is accepted the turn is refreshed
        and {from, to} is sent, when there is a connected socket. */
    method MakeMove(from: string, to: string, hasSocket: bool, isConnected: bool) returns (ok: bool)
      modifies this
      ensures ok <==> rules.move(old(state).board, Coords(from, to, Some("q"))).Some?
      ensures !ok ==> state == old(state) && sent == old(sent)
      ensures ok ==>
                var after := rules.move(old(state).board, Coords(from, to, Some("q"))).value.next;
                state == old(state).(board := after, turn := rules.turn(after))
      ensures ok && hasSocket && isConnected ==> sent == old(sent) + [ClientMove(MovePayload(from, to))]
      ensures ok && !(hasSocket && isConnected) ==> sent == old(sent)
      ensures TurnInSync(rules, old(state)) ==> TurnInSync(rules, state)
    {
      var move := rules.move(state.board, Coords(from, to, Some("q")));
      if move.Some? {
        state := state.(board := move.value.next);
        state := state.(turn := rules.turn(state.board));
        if hasSocket && isConnected {
          sent := sent + [ClientMove(MovePayload(from, to))];
        }
        return true;
      }
      return false;
    }

    method ResetGame()
      modifies this
      ensures state == InitialState(rules) && sent == old(sent)
      ensures rules.turn(rules.start) == W ==> TurnInSync(rules, state)
    {
      state := GameState(rules.start, None, Waiting, W, None);
    }
  }
}
