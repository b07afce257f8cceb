# Chess over WebSockets — a Dafny model of the game core

The system is a two-player chess service. Browsers connect to a WebSocket
server. A matchmaker (`GameManager`) keeps three things: the list of
connected sockets, a single pending slot for a player who is waiting for
an opponent, and the list of running games. Each game (`Game`) pairs two
sockets: player1 plays white and player2 plays black. A game holds one
rules engine: a thin wrapper (`ChessGame`) over the chess.js library.

A game relays moves. It checks that the sender is on turn, lets the
engine accept or reject the move, and then announces one of three
things: the move to both players, the end of the game to both players,
or the rejection to the mover alone. The browser keeps its own copy of
the board (`useChessGame`). It replays the moves it is told about and
derives whose turn it is. Two display helpers, the move-history grouping
and the clock's time format, are modelled too. An older server
(`backend1`) has its own `Game` class. It uses chess.js directly and is
modelled beside the current one.

The model is organised as follows:

- `protocol.dfy` (`Protocol`): the message types and the outbound
  transport.
  - A socket is an opaque `nat` handle.
  - The server's sends are recorded in one `Transport` object as a log of
    `Delivery(to, msg)`.
  - `Inbox(log, s)` reads off what a single socket received.
- `engine.dfy` (`Engine`): the engine wrapper.
  - chess.js itself is a parameter, `Rules`. It holds the start position,
    the side to move, the move function (`None` where chess.js rejects a
    move), and the checkmate and draw tests.
  - Every property proved here holds for any rules engine.
- `session.dfy` (`Session`): the game session of the current server.
- `legacy_session.dfy` (`LegacySession`): the game session of the older
  server, and how it differs from the current one.
- `matchmaker.dfy` (`Matchmaker`): the matchmaker.
  - Each handler is first written as a function on a value view of the
    manager. It gives the next view and the messages sent.
  - The class `GameManager` updates its fields in place, and is proved to
    follow those functions exactly.
- `client_game.dfy` (`ClientGame`): the client reducer and the
  `makeMove`, `resetGame` and `isMyTurn` parts of the hook.
- `move_history.dfy` (`MoveHistory`) and `chess_clock.dfy` (`ChessClock`):
  the two display helpers.

Where the code behaves unexpectedly, the model follows the code:

- A socket that asks for a game twice is paired with itself.
- A socket that asks for a game while it is already playing can be in
  two games at once.
- A game that ends by checkmate or a draw is not removed from the
  matchmaker. The server sends only `game_over` for the final move, not
  the move itself.
- On a draw, the engine wrapper names a winner: the colour that is not to
  move. It has no "no winner" case.
- `opponent_left` carries only a fixed text.
- There is no time control, no clock message and no "ended" status.
- A move or resignation from a socket that is in no game is ignored.

## Model

| member | source | states |
|---|---|---|
| Protocol.Opposite | apps/ws-server/src/GameManager.ts:70-71 | the winner of a resignation is the colour that did not resign, never the same colour |
| Protocol.Broadcast | apps/ws-server/src/GameManager.ts:78-79 | exactly two deliveries of the same message: first to player1, then to player2 |
| Protocol.BroadcastInbox | apps/ws-server/src/GameManager.ts:78-79 | each player gets the message once when the two differ, and a self-paired socket gets it twice. No other socket receives anything |
| Protocol.Transport.Send | apps/ws-server/src/GameManager.ts:23-28 | one `socket.send`, which every send in the model goes through: the log gains exactly that delivery at its end |
| Engine.WinnerAt | packages/chess-engine/src/Game.ts:33-40 | there is no winner exactly when the game is not over. A winner is never the side to move. A drawn position still names a winner |
| Engine.TryMoveAt | packages/chess-engine/src/Game.ts:20-27 | a move that the library rejects gives null and leaves the position unchanged. An accepted move returns the library's move record and its new position |
| Engine.ChessEngine.constructor | packages/chess-engine/src/Game.ts:8-10 | a new engine is at the start position |
| Engine.ChessEngine.GetTurn | packages/chess-engine/src/Game.ts:16-18 | the side to move, as the library reports it for the current board |
| Engine.ChessEngine.IsGameOver | packages/chess-engine/src/Game.ts:29-31 | the game is over exactly when the board is checkmate or drawn |
| Engine.ChessEngine.GetWinner | packages/chess-engine/src/Game.ts:33-40 | null exactly when the game is not over; otherwise the colour that is not to move |
| Engine.ChessEngine.TryMove | packages/chess-engine/src/Game.ts:20-27 | returns the move record, or null for a rejected move. The board advances only when the move is accepted |
| Session.StartMessages | apps/ws-server/src/game.ts:23-38 | player1 is told white and then player2 is told black, one message each. A self-paired socket receives both colours |
| Session.Game.constructor | apps/ws-server/src/game.ts:17-39 | the new game has a fresh engine at the start position, and exactly the two colour messages are sent |
| Session.MayMove | apps/ws-server/src/game.ts:43-50 | the turn guard, shared by both servers (backend1/src/game.ts:35-42): a move may proceed exactly when the sender is player1 with white to move or player2 with black to move |
| Session.Submitted | apps/ws-server/src/game.ts:53 | definition used by Session.MakeMoveAt and LegacySession.MakeMoveAt: the client's from and to are handed to the library with no promotion piece, as in backend1/src/game.ts:45 too |
| Session.Announce | apps/ws-server/src/game.ts:84-93 | definition used by Session.MakeMoveAt: the move payload carries the library's from, to, san and promotion |
| Session.MakeMoveAt | apps/ws-server/src/game.ts:41-96 | a sender who is not on turn changes nothing and hears nothing. A rejected move leaves the board unchanged and sends the fixed error with the move only to the sender. An accepted move advances the board and sends identical messages to both players: game_over with the engine's winner if the game is over, otherwise move with from, to, san and promotion. A move message is sent only when the game is not over. Every recipient is a player, and distinct players get at most one message each. A game_over sent here always names a winner |
| Session.Game.MakeMove | apps/ws-server/src/game.ts:41-96 | the engine's board and the transport log change exactly as Session.MakeMoveAt says |
| LegacySession.MoverWins | backend1/src/game.ts:52 | the winner is the colour opposite to the side to move in the new position. It is never null, so a draw also names a winner |
| LegacySession.Echo | backend1/src/game.ts:69-72 | definition used by LegacySession.MakeMoveAt: the payload is the submitted {from, to} and nothing else |
| LegacySession.MakeMoveAt | backend1/src/game.ts:30-76 | a sender who is not on turn and a move the library throws on both change nothing and send nothing. An accepted move advances the board and sends both players game_over naming the colour not to move in the new position when the game is over, otherwise the submitted {from, to} echoed back. No error message is ever sent |
| LegacySession.Game.constructor | backend1/src/game.ts:11-28 | the board is at the start position, and player1 is told white and then player2 is told black |
| LegacySession.Game.MakeMove | backend1/src/game.ts:30-76 | the board and the transport log change exactly as LegacySession.MakeMoveAt says |
| LegacySession.GameOverNamesMover | backend1/src/game.ts:51-65 | when the accepted, game-ending move passes the turn, both servers' game_over names the sender's colour: player1 is white and player2 is black. So on a draw the mover is declared the winner |
| LegacySession.SameBoard | backend1/src/game.ts:30-76 | for every input, the older and the current server leave the game on the same board |
| LegacySession.SameGameOver | backend1/src/game.ts:51-66 | on a move that ends the game, both servers send the same game_over, naming the colour that is not to move |
| LegacySession.RejectionDiffers | backend1/src/game.ts:44-49 | on a move the library rejects from the player on turn, the older server sends nothing, while the current one tells the mover |
| Matchmaker.FindGame | apps/ws-server/src/GameManager.ts:19 | the index of the first game the socket plays in, or none when it plays in no game |
| Matchmaker.RemoveAt | apps/ws-server/src/GameManager.ts:29 | the games without the k-th, with the others kept in order |
| Matchmaker.Without | apps/ws-server/src/GameManager.ts:32 | exactly the users other than the socket remain |
| Matchmaker.Opponent | apps/ws-server/src/GameManager.ts:22 | for a socket that is player1 the opponent is player2, and for a socket that is player2 it is player1 |
| Matchmaker.WithoutIdempotent | apps/ws-server/src/GameManager.ts:32 | filtering a socket out twice is the same as filtering it out once |
| Matchmaker.AddUser | apps/ws-server/src/GameManager.ts:10-14 | the socket is appended to the users. Games and the pending slot are unchanged, and nothing is sent |
| Matchmaker.RemoveUser | apps/ws-server/src/GameManager.ts:16-37 | the socket leaves the users and, if it held it, the pending slot. If the socket is in no game, nothing is sent. Otherwise its first game is removed and only the other player is sent the fixed opponent_left text, exactly once |
| Matchmaker.Join | apps/ws-server/src/GameManager.ts:44-54 | with nobody pending, the sender waits and nothing is sent. Otherwise one game is appended with the pending socket as player1 and the sender as player2, the slot is cleared, and the two colour messages are sent |
| Matchmaker.RouteMove | apps/ws-server/src/GameManager.ts:56-64 | a sender in no game changes nothing. Otherwise only the first game it plays in changes, as Session.MakeMoveAt says. No game is added or removed, even on checkmate |
| Matchmaker.ResignGame | apps/ws-server/src/GameManager.ts:65-82 | a sender in no game changes nothing. Otherwise the resigner counts as white exactly when it is player1. Both players receive game_over naming the other colour, and only that game is removed |
| Matchmaker.Dispatch | apps/ws-server/src/GameManager.ts:39-84 | init_game goes to Join, move to RouteMove and resign to ResignGame. No request makes the server send a game_over without a winner |
| Matchmaker.RemoveUserIdempotent | apps/ws-server/src/GameManager.ts:16-37 | a second disconnect of the same socket changes nothing and sends nothing, when the socket was in at most one game |
| Matchmaker.PairingTwoSockets | apps/ws-server/src/GameManager.ts:44-54 | two distinct sockets asking in turn start one game: the first is white, the second is black, and each hears its colour once |
| Matchmaker.SelfPairing | apps/ws-server/src/GameManager.ts:45-49 | a socket that asks twice is paired with itself and receives both colours |
| Matchmaker.PendingIsUserPreserved | apps/ws-server/src/GameManager.ts:10-54 | connect, disconnect and every request from a connected socket keep the pending socket among the users |
| Matchmaker.TwoGamesOneSocket | apps/ws-server/src/GameManager.ts:16-54 | a concrete run in which one socket is in two games. Its first disconnect notifies one opponent, and its second disconnect notifies the other |
| Matchmaker.Filter | apps/ws-server/src/GameManager.ts:80 | the resigned game object is no longer in the list, and the list does not grow |
| Matchmaker.FilterMembers | apps/ws-server/src/GameManager.ts:80 | the filtered list holds exactly the games of the old list other than the given one |
| Matchmaker.FilterDistinct | apps/ws-server/src/GameManager.ts:80 | when the games are distinct objects, filtering out the k-th game is the same as removing index k |
| Matchmaker.GameManager.constructor | apps/ws-server/src/GameManager.ts:5-8 | no games, nobody pending, no users |
| Matchmaker.GameManager.AddUserToGame | apps/ws-server/src/GameManager.ts:10-14 | the manager's view becomes Matchmaker.AddUser of the old view, and the transport is unchanged |
| Matchmaker.GameManager.RemoveUserFromGame | apps/ws-server/src/GameManager.ts:16-37 | the view and the transport log change exactly as Matchmaker.RemoveUser says, and the manager stays well formed |
| Matchmaker.GameManager.OnMessage | apps/ws-server/src/GameManager.ts:39-84 | the view and the transport log change exactly as Matchmaker.Dispatch says, and the manager stays well formed |
| Matchmaker.GameManager.HandleInitGame | apps/ws-server/src/GameManager.ts:44-54 | the view and log change as Matchmaker.Join says. A pairing appends exactly one new game object, with a new engine, after the old games; with nobody pending the game list is unchanged |
| Matchmaker.GameManager.HandleMove | apps/ws-server/src/GameManager.ts:56-64 | the view and log change as Matchmaker.RouteMove says |
| Matchmaker.GameManager.HandleResign | apps/ws-server/src/GameManager.ts:65-82 | the view and log change as Matchmaker.ResignGame says |
| Matchmaker.GameManager.LeaveGame | apps/ws-server/src/GameManager.ts:19-30 | the game part of a disconnect: the view's games become those of RemoveUser, users and pending stay, and the log gains exactly RemoveUser's opponent_left delivery |
| Matchmaker.GameManager.DropGameAt | apps/ws-server/src/GameManager.ts:29 | `splice(k, 1)`: the view's games lose entry k and keep their order, and nothing else changes |
| Matchmaker.GameManager.StartGame | apps/ws-server/src/GameManager.ts:47-49 | the view and the log follow Join for a pairing. One fresh game with a fresh engine is appended after the old games, which stay in place |
| Matchmaker.GameManager.AppendGame | apps/ws-server/src/GameManager.ts:48 | `push`: the game object is appended after the old ones and its view is appended to the view's games |
| Matchmaker.GameManager.FilterOut | apps/ws-server/src/GameManager.ts:80 | `filter(g => g !== game)` on the k-th game: the list becomes Filter of the old list, and the view's games lose entry k |
| Matchmaker.GameManager.Notify | apps/ws-server/src/GameManager.ts:23-28 | one `send`: the log gains exactly that delivery and the view is unchanged |
| Matchmaker.GameManager.NotifyBoth | apps/ws-server/src/GameManager.ts:78-79 | player1 and then player2 get the same message. The log gains exactly Broadcast's deliveries, and the view is unchanged |
| ClientGame.InitialState | apps/web/hooks/useChessGame.ts:25-31 | start position, no colour, waiting, white to move, no winner |
| ClientGame.Incoming | apps/web/hooks/useChessGame.ts:55-61 | a string payload is played as SAN. An object payload is played as from/to with its promotion piece, and a queen when that piece is missing or empty |
| ClientGame.Reduce | apps/web/hooks/useChessGame.ts:40-87 | init_game sets the colour and playing. game_over sets finished and the winner. A move changes only the board and the turn: not at all when the local engine rejects it, otherwise to the new position and its side to move. Other messages change nothing |
| ClientGame.ReducePreservesSync | apps/web/hooks/useChessGame.ts:49-78 | every message keeps the client's turn equal to its board's side to move |
| ClientGame.InitialInSync | apps/web/hooks/useChessGame.ts:25-31 | with rules that start with white to move, the initial turn "w" agrees with the initial board |
| ClientGame.FinishedStays | apps/web/hooks/useChessGame.ts:40-87 | once finished, only a new init_game leaves the finished status |
| ClientGame.IsMyTurn | apps/web/hooks/useChessGame.ts:135-138 | true exactly when the player has a colour and that colour is to move |
| ClientGame.ChessGameHook.constructor | apps/web/hooks/useChessGame.ts:25-31 | the hook starts in the initial state and has sent nothing |
| ClientGame.ChessGameHook.OnMessage | apps/web/hooks/useChessGame.ts:36-88 | the state becomes Reduce of the old state, and nothing is sent |
| ClientGame.ChessGameHook.MakeMove | apps/web/hooks/useChessGame.ts:97-119 | returns true exactly when the local engine accepts the move with a queen as promotion. Then the board and turn advance, and {from, to} is sent only when a socket is present and connected. On false, nothing changes. A state whose turn agrees with its board keeps that agreement |
| ClientGame.ChessGameHook.ResetGame | apps/web/hooks/useChessGame.ts:121-129 | the state returns to the initial state, and nothing is sent. With rules that start with white to move, the reset turn agrees with the reset board |
| MoveHistory.GroupMoves | apps/web/components/MoveHistory.tsx:18-25 | ceil(n/2) rows. Row k is numbered k+1 and holds move 2k for white, plus move 2k+1 for black when it exists and is not empty |
| MoveHistory.FlattenPairs | apps/web/components/MoveHistory.tsx:18-25 | with no empty entries, reading the rows back gives exactly the move list |
| MoveHistory.OnlyLastPairOpen | apps/web/components/MoveHistory.tsx:18-25 | with no empty entries, only the last row can lack black's move, and it does exactly when the number of moves is odd |
| MoveHistory.NoMovesNoPairs | apps/web/components/MoveHistory.tsx:18-25 | an empty move list gives no rows |
| ChessClock.Digits | apps/web/components/ChessClock.tsx:12 | the decimal digits of a number, one digit exactly below 10 |
| ChessClock.DigitsLeading | apps/web/components/ChessClock.tsx:12 | only zero is written with a leading '0' |
| ChessClock.DigitsRoundTrip | apps/web/components/ChessClock.tsx:12 | the digits read back to the number |
| ChessClock.PadStart | apps/web/components/ChessClock.tsx:12 | the string is kept at the end, preceded by fill characters up to the width |
| ChessClock.NumberToString | apps/web/components/ChessClock.tsx:12 | definition used by ChessClock.Render: `toString()` of an integer, a minus sign and then the digits of a negative number |
| ChessClock.JsRem | apps/web/components/ChessClock.tsx:11 | JavaScript's remainder: the dividend minus the remainder is a multiple of the divisor. For a non-negative dividend it lies in [0, b), and for a negative one in (-b, 0] |
| ChessClock.FormatTime | apps/web/components/ChessClock.tsx:8-13 | for a non-negative time: at least four characters, all digits except one colon that stands exactly three characters from the end |
| ChessClock.Render | apps/web/components/ChessClock.tsx:12 | the template literal: for minutes at least 0 and seconds in [0, 60), at least four characters, digits on both sides, and the colon three characters from the end |
| ChessClock.ClockParts | apps/web/components/ChessClock.tsx:9-11 | for a non-negative time: minutes times 60 plus seconds is the whole number of seconds, with seconds in [0, 60) |
| ChessClock.TwoDigitSeconds | apps/web/components/ChessClock.tsx:12 | the padded seconds are two digits worth the seconds value |
| ChessClock.FormatTimeShape | apps/web/components/ChessClock.tsx:8-13 | a non-negative time prints as minutes, one colon and two digits, which read back to the whole seconds |
| ChessClock.FormatTimeZero | apps/web/components/ChessClock.tsx:8-13 | 0 ms prints as 0:00 |
| ChessClock.FormatTimeFiveMinutes | apps/web/components/ChessClock.tsx:8-13 | 300000 ms prints as 5:00 |
| ChessClock.FormatTimeRoundsDown | apps/web/components/ChessClock.tsx:8-13 | 61999 ms prints as 1:01: milliseconds are dropped and the seconds are padded |
| ChessClock.NegativeTime | apps/web/components/ChessClock.tsx:8-13 | a negative time is not guarded: -500 ms prints as -1:-1 |

## Left out

- chess.js itself (move generation, FEN, SAN, checkmate and draw detection): it is an abstract `Rules` parameter over positions `Fen`. For the two servers, which keep one chess.js object per game, a `Fen` stands for the library's whole state, move history included, so the draw test may take threefold repetition into account. Only the client reloads its board from the FEN string alone (ClientGame.Reduce below). The game-over test is checkmate or draw, as the library defines it.
- Rejection by chess.js: a null result and a thrown exception are both `None`. This is right for the engine wrapper and the client reducer, which handle both.
- LegacySession.MakeMoveAt: the older server catches only a thrown exception. A library version that returned null for an illegal move would have it fall through and broadcast the echoed move. The model sends nothing, which is what happens with chess.js 1.x (the version whose `isGameOver` and `turn` API both servers use), where an illegal move throws.
- ClientGame.ChessGameHook.MakeMove: a move the library throws on would propagate out of `makeMove` rather than return false. It is modelled as returning false.
- ClientGame.ChessGameHook.MakeMove: the move is applied to the chess object that the state already holds, whereas the model replaces the board value. React's deferred state updates are modelled as immediate.
- ClientGame.Reduce: the reducer copies the board through its FEN, which drops the move history that chess.js uses for repetition draws. The model's position is the FEN, so it cannot show that loss.
- Session.MakeMoveAt: the "at most one message per socket" clause is stated only when the two players differ. A self-paired socket gets both copies.
- Matchmaker.RemoveUserIdempotent: idempotence is stated only when the socket is in at most one game, because the code allows a socket in two games, where it fails (Matchmaker.TwoGamesOneSocket).
- JSON encoding and decoding, message type strings, and `console.log`: messages are datatype values. A malformed frame that makes `JSON.parse` throw is not modelled.
- The HTTP and WebSocket bootstrap (the servers' `index.ts`), the client's socket hook, and the connection lifecycle: sockets are handles, and a disconnect is a call to the close handler.
- `startTime` / `Date.now()` in both `Game` classes: the value is stored and never read again.
- The engine wrapper's `getBoard` and `createChess`: they only expose or construct the library object, which the model represents by its position.
- `GameManager` of the older server (`backend1`) and its message constants file are not part of this model. Only its `Game` class is modelled.
- The compiled copies of the engine wrapper and of the message types (`.js`, `.d.ts`) and the separate shared-types package: they duplicate the modelled TypeScript.
- Rendering: the board, clock and history components beyond `formatTime` and the row grouping, and the game page.
- ChessClock.FormatTime: it runs on exact reals rather than IEEE doubles, so NaN, infinities and the exponent notation of very large numbers are not modelled.
- The `winner` of `game_over` is a colour in the message types. The model's message type allows null only because the engine's `getWinner` can return null. The server asks `getWinner` only after `isGameOver` is true, so no null winner is ever sent (Session.MakeMoveAt, Matchmaker.Dispatch).
- The `resign` request: the server compares against a `RESIGN` constant that the message-type files shown here do not define. The model assumes it is the string "resign". No client shown here sends it, because the web client's hook returns no `resign` function. The request is missing from the client message union, and the model includes it anyway.
- LegacySession.MoverWins: `Rules` does not require an accepted move to pass the turn. So "the mover is named the winner" is proved only for moves that do pass it, in LegacySession.GameOverNamesMover. In general the model promises only "the colour not to move in the new position".
