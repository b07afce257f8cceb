/** The wire protocol shared by the server and the web client, and the
    outbound transport the server sends through.

    Sockets are opaque handles; a frame is a value of `ClientMessage` or
    `ServerMessage` (JSON framing is not modelled). */
module Protocol {

  datatype Option<+T> = None | Some(value: T)

  /** An opaque connection handle (a `WebSocket` object in the server). */
  type Socket = nat

  /** `Color` of messages.ts. */
  datatype Color = White | Black

  /** The side to move as the rules engine reports it: "w" or "b". */
  datatype Turn = W | B

  function Opposite(c: Color): (o: Color)
    ensures o != c
  {
    if c == White then Black else White
  }

  /** The colour whose side is to move. */
  function ColorOf(t: Turn): (c: Color)
    ensures (c == White) <==> (t == W)
  {
    if t == W then White else Black
  }

  /** `MovePayload` of messages.ts: the move a client submits. */
  datatype MovePayload = MovePayload(from: string, to: string)

  /** The payload of a server `move` message. The ws-server sends
      from/to/san/promotion, the older server echoes {from, to}, and the
      client also accepts a bare SAN string. */
  datatype MoveBody =
    | MoveFields(from: string, to: string, san: Option<string>, promotion: Option<string>)
    | MoveText(text: string)

  /** `ServerMessage` of messages.ts. `winner` is nullable here because the
      engine's `getWinner` can return null, although messages.ts types it as
      a colour. */
  datatype ServerMessage =
    | InitGame(color: Color)
    | Move(payload: MoveBody)
    | GameOver(winner: Option<Color>)
    | OpponentLeft(message: string)
    | InvalidMove(error: string, move: MovePayload)

  /** `ClientMessage` of messages.ts, plus the `resign` request the server
      handles although the union does not list it. */
  datatype ClientMessage =
    | ClientInitGame
    | ClientMove(move: MovePayload)
    | ClientResign

  const OpponentLeftText: string := "Opponent left the game"
  const InvalidMoveText: string := "Invalid Move, please try again"

  /** One `socket.send`: a message addressed to one socket. */
  datatype Delivery = Delivery(to: Socket, msg: ServerMessage)

  /** The messages of `log` addressed to `s`, in the order they were sent:
      the outbox of socket `s`. */
  function Inbox(log: seq<Delivery>, s: Socket): (r: seq<ServerMessage>)
    ensures |r| <= |log|
    ensures (forall i :: 0 <= i < |log| ==> log[i].to != s) ==> r == []
  {
    if log == [] then []
    else (if log[0].to == s then [log[0].msg] else []) + Inbox(log[1..], s)
  }

  /** The same message sent to player1 and then to player2. */
  function Broadcast(p1: Socket, p2: Socket, m: ServerMessage): (out: seq<Delivery>)
    ensures |out| == 2 && out[0].to == p1 && out[1].to == p2 && out[0].msg == out[1].msg == m
  {
    [Delivery(p1, m), Delivery(p2, m)]
  }

  /** What each socket receives of a broadcast: one copy each for two
      players, both copies for a self-paired socket, nothing for others. */
  lemma BroadcastInbox(p1: Socket, p2: Socket, m: ServerMessage)
    ensures p1 != p2 ==> Inbox(Broadcast(p1, p2, m), p1) == [m] && Inbox(Broadcast(p1, p2, m), p2) == [m]
    ensures p1 == p2 ==> Inbox(Broadcast(p1, p2, m), p1) == [m, m]
    ensures forall x :: x != p1 && x != p2 ==> Inbox(Broadcast(p1, p2, m), x) == []
  {
    var out := Broadcast(p1, p2, m);
    assert out[1..] == [Delivery(p2, m)];
    assert out[1..][1..] == [];
  }

  /** The server's side of every socket: everything sent so far, in order. */
  class Transport {
    var sent: seq<Delivery>

    constructor ()
      ensures sent == []
    {
      sent := [];
    }

    method Send(to: Socket, msg: ServerMessage)
      modifies this
      ensures sent == old(sent) + [Delivery(to, msg)]
    {
      sent := sent + [Delivery(to, msg)];
    }
  }
}
