/** The matchmaker of apps/ws-server/src/GameManager.ts: the list of
    running games, the single pending slot and the list of connected
    sockets, with the handlers for connect, disconnect and the three client
    requests.

    The handlers are first given as functions on a value view of the
    manager (`ManagerView`), each answering the next view and the messages
    sent; the class `GameManager` below updates its fields in place and is
    proved to follow them. */
module Matchmaker {
  import opened Protocol
  import opened Engine
  import Session

  /** One running game: its two sockets and its engine's position. */
  datatype SessionView = SessionView(player1: Socket, player2: Socket, board: Fen)

  datatype ManagerView = ManagerView(games: seq<SessionView>, pending: Option<Socket>, users: seq<Socket>)

  /** The view a handler leaves and the messages it sends, in order. */
  datatype Effect = Effect(next: ManagerView, out: seq<Delivery>)

  predicate Plays(g: SessionView, s: Socket) {
    g.player1 == s || g.player2 == s
  }

  /** `findIndex` (and `find`) with the predicate "s is player1 or
      player2": the first game that s plays in. */
  function FindGame(games: seq<SessionView>, s: Socket): (k: Option<nat>)
    ensures k.Some? ==> k.value < |games| && Plays(games[k.value], s)
    ensures k.Some? ==> forall j :: 0 <= j < k.value ==> !Plays(games[j], s)
    ensures k.None? ==> forall j :: 0 <= j < |games| ==> !Plays(games[j], s)
  {
    if games == [] then None
    else if Plays(games[0], s) then Some(0)
    else match FindGame(games[1..], s)
      case None => None
      case Some(k) => Some(k + 1)
  }

  /** `splice(k, 1)`: the games without the k-th. */
  function RemoveAt(games: seq<SessionView>, k: nat): (r: seq<SessionView>)
    requires k < |games|
    ensures |r| == |games| - 1
    ensures forall j :: 0 <= j < k ==> r[j] == games[j]
    ensures forall j :: k <= j < |r| ==> r[j] == games[j + 1]
  {
    games[..k] + games[k + 1..]
  }

  /** `users.filter(user => user !== s)`. */
  function Without(users: seq<Socket>, s: Socket): (r: seq<Socket>)
    ensures forall u :: u in r <==> u in users && u != s
    ensures |r| <= |users|
  {
    if users == [] then []
    else (if users[0] == s then [] else [users[0]]) + Without(users[1..], s)
  }

  /** The other player of a game that s plays in. */
  function Opponent(g: SessionView, s: Socket): (o: Socket)
    ensures g.player1 == s ==> o == g.player2
    ensures g.player2 == s ==> o == g.player1
  {
    if g.player1 == s then g.player2 else g.player1
  }

  /** `addUserToGame`: the socket joins `users`; nothing else changes and
      nothing is sent. */
  function AddUser(v: ManagerView, s: Socket): (r: ManagerView)
    ensures r.users == v.users + [s]
    ensures r.games == v.games && r.pending == v.pending
  {
    v.(users := v.users + [s])
  }

  /** `removeUserFromGame`, the close handler. */
  function RemoveUser(v: ManagerView, s: Socket): (e: Effect)
    // the socket leaves `users`, and the pending slot if it held it
    ensures e.next.users == Without(v.users, s) && s !in e.next.users
    ensures e.next.pending == if v.pending == Some(s) then None else v.pending
    ensures e.next.pending.Some? ==> e.next.pending.value != s
    // in no game: nothing is sent and the games stay
    ensures FindGame(v.games, s).None? ==> e.next.games == v.games && e.out == []
    // in a game: that game goes and its other player hears exactly once
    ensures FindGame(v.games, s).Some? ==>
              var k := FindGame(v.games, s).value;
              && e.next.games == RemoveAt(v.games, k)
              && e.out == [Delivery(Opponent(v.games[k], s), OpponentLeft(OpponentLeftText))]
    ensures FindGame(v.games, s).Some? && v.games[FindGame(v.games, s).value].player1 != v.games[FindGame(v.games, s).value].player2 ==>
              var g := v.games[FindGame(v.games, s).value];
              Inbox(e.out, Opponent(g, s)) == [OpponentLeft(OpponentLeftText)] && Inbox(e.out, s) == []
  {
    var pending := if v.pending == Some(s) then None else v.pending;
    match FindGame(v.games, s)
    case None => Effect(ManagerView(v.games, pending, Without(v.users, s)), [])
    case Some(k) =>
      var out := [Delivery(Opponent(v.games[k], s), OpponentLeft(OpponentLeftText))];
      assert out[1..] == [];
      Effect(ManagerView(RemoveAt(v.games, k), pending, Without(v.users, s)), out)
  }

  /** `init_game`: wait in the pending slot, or start a game with the
      socket already waiting. The slot's socket is not compared with the
      sender, so a socket that asks twice is paired with itself. */
  function Join(rules: Rules, v: ManagerView, s: Socket): (e: Effect)
    ensures e.next.users == v.users
    ensures v.pending.None? ==> e.next == v.(pending := Some(s)) && e.out == []
    ensures v.pending.Some? ==>
              && e.next.games == v.games + [SessionView(v.pending.value, s, rules.start)]
              && e.next.pending.None?
              && e.out == Session.StartMessages(v.pending.value, s)
  {
    match v.pending
    case Some(p) =>
      Effect(v.(games := v.games + [SessionView(p, s, rules.start)], pending := None),
             Session.StartMessages(p, s))
    case None =>
      Effect(v.(pending := Some(s)), [])
  }

  /** `move`: routed to the first game the sender plays in. No game is
      ever removed here, not even when the move ends it. */
  function RouteMove(rules: Rules, v: ManagerView, s: Socket, mv: MovePayload): (e: Effect)
    ensures e.next.pending == v.pending && e.next.users == v.users
    ensures |e.next.games| == |v.games|
    ensures forall j :: 0 <= j < |v.games| ==>
              e.next.games[j].player1 == v.games[j].player1 && e.next.games[j].player2 == v.games[j].player2
    ensures FindGame(v.games, s).None? ==> e == Effect(v, [])
    ensures FindGame(v.games, s).Some? ==>
              var k := FindGame(v.games, s).value;
              var g := v.games[k];
              var o := Session.MakeMoveAt(rules, g.player1, g.player2, g.board, s, mv);
              && e.next.games == v.games[k := g.(board := o.board)]
              && e.out == o.out
  {
    match FindGame(v.games, s)
    case None => Effect(v, [])
    case Some(k) =>
      var g := v.games[k];
      var o := Session.MakeMoveAt(rules, g.player1, g.player2, g.board, s, mv);
      Effect(v.(games := v.games[k := g.(board := o.board)]), o.out)
  }

  /** `resign`: the resigner's colour is white when it is player1; the
      other colour wins, both players get the same `game_over`, and that
      game alone is dropped. */
  function ResignGame(v: ManagerView, s: Socket): (e: Effect)
    ensures e.next.pending == v.pending && e.next.users == v.users
    ensures FindGame(v.games, s).None? ==> e == Effect(v, [])
    ensures FindGame(v.games, s).Some? ==>
              var k := FindGame(v.games, s).value;
              var g := v.games[k];
              var resigning := if g.player1 == s then White else Black;
              && e.next.games == RemoveAt(v.games, k)
              && e.out == Broadcast(g.player1, g.player2, GameOver(Some(Opposite(resigning))))
  {
    match FindGame(v.games, s)
    case None => Effect(v, [])
    case Some(k) =>
      var g := v.games[k];
      var resigningPlayer := if g.player1 == s then White else Black;
      var winner := if resigningPlayer == White then Black else White;
      Effect(v.(games := RemoveAt(v.games, k)), Broadcast(g.player1, g.player2, GameOver(Some(winner))))
  }

  /** The message handler registered by `addHandler`. */
  function Dispatch(rules: Rules, v: ManagerView, s: Socket, msg: ClientMessage): (e: Effect)
    ensures msg.ClientInitGame? ==> e == Join(rules, v, s)
    ensures msg.ClientMove? ==> e == RouteMove(rules, v, s, msg.move)
    ensures msg.ClientResign? ==> e == ResignGame(v, s)
    // no request makes the server send game_over without a winner
    ensures forall i :: 0 <= i < |e.out| && e.out[i].msg.GameOver? ==> e.out[i].msg.winner.Some?
  {
    match msg
    case ClientInitGame => Join(rules, v, s)
    case ClientMove(mv) => RouteMove(rules, v, s, mv)
    case ClientResign => ResignGame(v, s)
  }

  // ---------------------------------------------------------------------
  // Properties of the handlers

  /** A socket plays in at most one of the games. */
  predicate AtMostOneGame(games: seq<SessionView>, s: Socket) {
    forall i, j :: 0 <= i < j < |games| && Plays(games[i], s) ==> !Plays(games[j], s)
  }

  lemma {:induction false} WithoutIdempotent(users: seq<Socket>, s: Socket)
    ensures Without(Without(users, s), s) == Without(users, s)
  {
    if users != [] {
      WithoutIdempotent(users[1..], s);
      if users[0] == s {
        assert Without(users, s) == Without(users[1..], s);
      } else {
        assert Without(users, s) == [users[0]] + Without(users[1..], s);
        assert Without(users, s)[1..] == Without(users[1..], s);
      }
    }
  }

  /** A second disconnect of the same socket finds no game, sends nothing
      and changes nothing, provided the socket was in at most one game. */
  lemma RemoveUserIdempotent(v: ManagerView, s: Socket)
    requires AtMostOneGame(v.games, s)
    ensures var e := RemoveUser(v, s); RemoveUser(e.next, s) == Effect(e.next, [])
  {
    var e := RemoveUser(v, s);
    WithoutIdempotent(v.users, s);
    match FindGame(v.games, s)
    case None =>
    case Some(k) =>
      var rest := e.next.games;
      forall j | 0 <= j < |rest| ensures !Plays(rest[j], s) {
        if j >= k {
          assert rest[j] == v.games[j + 1];
        }
      }
      assert FindGame(rest, s).None?;
  }

  /** Two distinct sockets asking for a game, with nobody waiting, start
      exactly one game: the first is white, the second black, and each is
      told its colour once. */
  lemma PairingTwoSockets(rules: Rules, v: ManagerView, a: Socket, b: Socket)
    requires v.pending.None? && a != b
    ensures var e1 := Join(rules, v, a);
            var e2 := Join(rules, e1.next, b);
            && e1.out == []
            && e2.next.games == v.games + [SessionView(a, b, rules.start)]
            && e2.next.pending.None?
            && Inbox(e1.out + e2.out, a) == [InitGame(White)]
            && Inbox(e1.out + e2.out, b) == [InitGame(Black)]
  {
    var e1 := Join(rules, v, a);
    var e2 := Join(rules, e1.next, b);
    assert e1.out + e2.out == e2.out;
  }

  /** A socket that sends `init_game` twice is paired with itself and
      receives both colours. */
  lemma SelfPairing(rules: Rules, v: ManagerView, s: Socket)
    requires v.pending.None?
    ensures var e1 := Join(rules, v, s);
            var e2 := Join(rules, e1.next, s);
            && e2.next.games == v.games + [SessionView(s, s, rules.start)]
            && Inbox(e1.out + e2.out, s) == [InitGame(White), InitGame(Black)]
  {
    var e1 := Join(rules, v, s);
    var e2 := Join(rules, e1.next, s);
    assert e1.out + e2.out == e2.out;
  }

  /** Sockets known to the manager stay known: the pending socket is always
      one of `users`, when requests come only from connected sockets. */
  predicate PendingIsUser(v: ManagerView) {
    v.pending.Some? ==> v.pending.value in v.users
  }

  lemma PendingIsUserPreserved(rules: Rules, v: ManagerView, s: Socket, msg: ClientMessage)
    requires PendingIsUser(v)
    ensures PendingIsUser(AddUser(v, s))
    ensures PendingIsUser(RemoveUser(v, s).next)
    ensures s in v.users ==> PendingIsUser(Dispatch(rules, v, s, msg).next)
  {
  }

  /** A socket can end up in two games at once (it asks again while
      playing), and then its disconnect is not idempotent: the first close
      notifies one opponent and leaves the other game running with a
      departed player, the second close notifies the other opponent. */
  lemma TwoGamesOneSocket(rules: Rules)
    ensures var v0 := ManagerView([], None, [1, 2, 3]);
            var v1 := Join(rules, v0, 1).next;
            var v2 := Join(rules, v1, 2).next;
            var v3 := Join(rules, v2, 1).next;
            var v4 := Join(rules, v3, 3).next;
            var d1 := RemoveUser(v4, 1);
            var d2 := RemoveUser(d1.next, 1);
            && v4.games == [SessionView(1, 2, rules.start), SessionView(1, 3, rules.start)]
            && d1.out == [Delivery(2, OpponentLeft(OpponentLeftText))]
            && d1.next.games == [SessionView(1, 3, rules.start)]
            && 1 !in d1.next.users
            && d2.out == [Delivery(3, OpponentLeft(OpponentLeftText))]
  {
    var v0 := ManagerView([], None, [1, 2, 3]);
    var v1 := Join(rules, v0, 1).next;
    var v2 := Join(rules, v1, 2).next;
    var v3 := Join(rules, v2, 1).next;
    var v4 := Join(rules, v3, 3).next;
    assert v4.games == [SessionView(1, 2, rules.start), SessionView(1, 3, rules.start)];
    assert FindGame(v4.games, 1) == Some(0);
    var d1 := RemoveUser(v4, 1);
    assert d1.next.games == [SessionView(1, 3, rules.start)];
    assert FindGame(d1.next.games, 1) == Some(0);
  }

  // ---------------------------------------------------------------------
  // The manager object

  /** What a pairing `init_game` leaves and sends, in one piece. */
  lemma JoinPaired(rules: Rules, v: ManagerView, s: Socket)
    requires v.pending.Some?
    ensures Join(rules, v, s) ==
              Effect(ManagerView(v.games + [SessionView(v.pending.value, s, rules.start)], None, v.users),
                     Session.StartMessages(v.pending.value, s))
  {
  }

  /** What `resign` from a player of game k leaves and sends, in one piece. */
  lemma ResignAt(v: ManagerView, s: Socket, k: nat)
    requires FindGame(v.games, s) == Some(k)
    ensures var m := GameOver(Some(if v.games[k].player1 == s then Black else White));
            ResignGame(v, s) ==
              Effect(ManagerView(RemoveAt(v.games, k), v.pending, v.users),
                     Broadcast(v.games[k].player1, v.games[k].player2, m))
  {
  }

  /** The view `removeUserFromGame` leaves, field by field. */
  lemma RemoveUserNext(v: ManagerView, s: Socket)
    ensures RemoveUser(v, s).next ==
              ManagerView(RemoveUser(v, s).next.games, if v.pending == Some(s) then None else v.pending, Without(v.users, s))
  {
  }

  /** The games' views, read off their engines. */
  function Views(gs: seq<Session.Game>): (r: seq<SessionView>)
    reads set g | g in gs :: g.engine
    ensures |r| == |gs|
    ensures forall i :: 0 <= i < |gs| ==> r[i] == SessionView(gs[i].player1, gs[i].player2, gs[i].engine.board)
  {
    if gs == [] then []
    else [SessionView(gs[0].player1, gs[0].player2, gs[0].engine.board)] + Views(gs[1..])
  }

  /** `games.filter(g => g !== game)`, by object identity. */
  function Filter(gs: seq<Session.Game>, game: Session.Game): (r: seq<Session.Game>)
    ensures game !in r && |r| <= |gs|
  {
    if gs == [] then []
    else (if gs[0] == game then [] else [gs[0]]) + Filter(gs[1..], game)
  }

  /** Filtering keeps exactly the other games of the list. */
  lemma {:induction false} FilterMembers(gs: seq<Session.Game>, game: Session.Game)
    ensures forall i :: 0 <= i < |Filter(gs, game)| ==> Filter(gs, game)[i] in gs && Filter(gs, game)[i] != game
    ensures forall i :: 0 <= i < |gs| && gs[i] != game ==> gs[i] in Filter(gs, game)
  {
    if gs != [] {
      FilterMembers(gs[1..], game);
      var rest := Filter(gs[1..], game);
      assert Filter(gs, game) == (if gs[0] == game then [] else [gs[0]]) + rest;
      assert forall i :: 1 <= i < |gs| ==> gs[i] == gs[1..][i - 1];
    }
  }

  /** With no game listed twice, filtering out the k-th game is removing
      index k. */
  lemma {:induction false} FilterDistinct(gs: seq<Session.Game>, k: nat)
    requires k < |gs|
    requires forall i, j :: 0 <= i < j < |gs| ==> gs[i] != gs[j]
    ensures Filter(gs, gs[k]) == gs[..k] + gs[k + 1..]
  {
    if k == 0 {
      FilterAbsent(gs[1..], gs[0]);
      assert gs[..0] + gs[1..] == gs[1..];
    } else {
      FilterDistinct(gs[1..], k - 1);
      assert gs[1..][k - 1] == gs[k];
      assert gs[1..][..k - 1] + gs[1..][k..] == gs[1..k] + gs[k + 1..];
      assert gs[..k] + gs[k + 1..] == [gs[0]] + (gs[1..k] + gs[k + 1..]);
    }
  }

  lemma {:induction false} FilterAbsent(gs: seq<Session.Game>, game: Session.Game)
    requires game !in gs
    ensures Filter(gs, game) == gs
  {
    if gs != [] {
      FilterAbsent(gs[1..], game);
      assert [gs[0]] + gs[1..] == gs;
    }
  }

  class GameManager {
    const rules: Rules
    const net: Transport
    var games: seq<Session.Game>
    var pendingUser: Option<Socket>
    var users: seq<Socket>

    ghost function Engines(): set<ChessEngine>
      reads this
    {
      set g | g in games :: g.engine
    }

    /** Every game sends through the manager's transport and plays by the
        manager's rules, and no two games share an engine. */
    ghost predicate Valid()
      reads this
    {
      Wired(games, rules, net) && EnginesDistinct(games)
    }

    ghost function View(): ManagerView
      reads this, Engines()
    {
      ManagerView(Views(games), pendingUser, users)
    }

    constructor (rules: Rules, net: Transport)
      ensures Valid() && this.rules == rules && this.net == net
      ensures View() == ManagerView([], None, [])
    {
      this.rules := rules;
      this.net := net;
      games := [];
      pendingUser := None;
      users := [];
    }

    method AddUserToGame(s: Socket)
      requires Valid()
      modifies this
      ensures Valid() && net.sent == old(net.sent)
      ensures View() == AddUser(old(View()), s)
    {
      users := users + [s];
    }

    method RemoveUserFromGame(s: Socket)
      requires Valid()
      modifies this, net
      ensures Valid()
      ensures View() == RemoveUser(old(View()), s).next
      ensures net.sent == old(net.sent) + RemoveUser(old(View()), s).out
    {
      ghost var v := View();
      RemoveUserNext(v, s);
      LeaveGame(s);
      var nextUsers := Without(users, s);
      var nextPending := if pendingUser == Some(s) then None else pendingUser;
      assert ManagerView(Views(games), nextPending, nextUsers) == RemoveUser(v, s).next;
      users, pendingUser := nextUsers, nextPending;
    }

    /** The game part of `removeUserFromGame`: the first game the socket
        plays in is dropped and its other player told. */
    method LeaveGame(s: Socket)
      requires Valid()
      modifies this, net
      ensures Valid()
      ensures View() == old(View()).(games := RemoveUser(old(View()), s).next.games)
      ensures net.sent == old(net.sent) + RemoveUser(old(View()), s).out
    {
      ghost var v := View();
      var gameIndex := FindGame(Views(games), s);
      if gameIndex.Some? {
        var game := games[gameIndex.value];
        var opponent := if game.player1 == s then game.player2 else game.player1;
        Notify(opponent, OpponentLeft(OpponentLeftText));
        DropGameAt(gameIndex.value);
      }
    }

    /** One `send` on a player's socket: the manager's view stays. */
    method Notify(to: Socket, msg: ServerMessage)
      requires Valid()
      modifies net
      ensures Valid() && View() == old(View())
      ensures net.sent == old(net.sent) + [Delivery(to, msg)]
    {
      net.Send(to, msg);
    }

    /** The same message to the two players of a game, player1 first. */
    method NotifyBoth(p1: Socket, p2: Socket, msg: ServerMessage)
      requires Valid()
      modifies net
      ensures Valid() && View() == old(View())
      ensures net.sent == old(net.sent) + Broadcast(p1, p2, msg)
    {
      Notify(p1, msg);
      Notify(p2, msg);
      assert net.sent == old(net.sent) + [Delivery(p1, msg)] + [Delivery(p2, msg)];
    }

    /** `splice(k, 1)` on the games. */
    method DropGameAt(k: nat)
      requires Valid() && k < |games|
      modifies this
      ensures Valid()
      ensures View() == old(View()).(games := RemoveAt(old(View()).games, k))
    {
      ghost var v := View();
      ViewsRemoveAt(games, k);
      RemovePreservesValid(games, k, rules, net);
      var kept := games[..k] + games[k + 1..];
      assert ManagerView(Views(kept), pendingUser, users) == v.(games := RemoveAt(v.games, k));
      games := kept;
    }

    method OnMessage(s: Socket, msg: ClientMessage)
      requires Valid()
      modifies this, net, Engines()
      ensures Valid()
      ensures View() == Dispatch(rules, old(View()), s, msg).next
      ensures net.sent == old(net.sent) + Dispatch(rules, old(View()), s, msg).out
    {
      match msg
      case ClientInitGame => HandleInitGame(s);
      case ClientMove(mv) => HandleMove(s, mv);
      case ClientResign => HandleResign(s);
    }

    method HandleInitGame(s: Socket)
      requires Valid()
      modifies this, net
      ensures Valid()
      ensures View() == Join(rules, old(View()), s).next
      ensures net.sent == old(net.sent) + Join(rules, old(View()), s).out
      // a pairing appends one new game object with its own new engine
      ensures old(pendingUser).Some? ==>
                |games| == |old(games)| + 1 && games[..|old(games)|] == old(games) &&
                fresh(games[|games| - 1]) && fresh(games[|games| - 1].engine)
      ensures old(pendingUser).None? ==> games == old(games)
    {
      if pendingUser.Some? {
        StartGame(pendingUser.value, s);
      } else {
        pendingUser := Some(s);
      }
    }

    /** The pairing branch of `init_game`: a new game of the pending
        socket `p` against `s`. */
    method StartGame(p: Socket, s: Socket)
      requires Valid() && pendingUser == Some(p)
      modifies this, net
      ensures Valid()
      ensures View() == Join(rules, old(View()), s).next
      ensures net.sent == old(net.sent) + Join(rules, old(View()), s).out
      ensures |games| == |old(games)| + 1 && games[..|old(games)|] == old(games)
      ensures fresh(games[|games| - 1]) && fresh(games[|games| - 1].engine)
    {
      ghost var v := View();
      JoinPaired(rules, v, s);
      var game := new Session.Game(p, s, rules, net);
      assert View() == v;
      AppendGame(game);
      pendingUser := None;
    }

    /** `games.push(game)` for a game of this manager's rules and
        transport whose engine no running game shares. */
    method AppendGame(game: Session.Game)
      requires Valid()
      requires game.net == net && game.engine.rules == rules && game.engine !in Engines()
      modifies this
      ensures Valid()
      ensures games == old(games) + [game] && games[..|old(games)|] == old(games)
      ensures View() == old(View()).(games := old(View()).games + [SessionView(game.player1, game.player2, game.engine.board)])
    {
      ghost var v := View();
      ViewsAppend(games, game);
      AppendPreservesValid(games, game, rules, net);
      var grown := games + [game];
      assert grown[..|games|] == games;
      assert ManagerView(Views(grown), pendingUser, users) ==
             v.(games := v.games + [SessionView(game.player1, game.player2, game.engine.board)]);
      games := grown;
    }

    method HandleMove(s: Socket, mv: MovePayload)
      requires Valid()
      modifies this, net, Engines()
      ensures Valid()
      ensures View() == RouteMove(rules, old(View()), s, mv).next
      ensures net.sent == old(net.sent) + RouteMove(rules, old(View()), s, mv).out
    {
      var k := FindGame(Views(games), s);
      if k.Some? {
        var game := games[k.value];
        ghost var before := Views(games);
        game.MakeMove(s, mv);
        assert forall j :: 0 <= j < |games| && j != k.value ==> games[j].engine != game.engine;
        OneBoardMoved(games, k.value, before);
      }
    }

    method HandleResign(s: Socket)
      requires Valid()
      modifies this, net
      ensures Valid()
      ensures View() == ResignGame(old(View()), s).next
      ensures net.sent == old(net.sent) + ResignGame(old(View()), s).out
    {
      ghost var v := View();
      var k := FindGame(Views(games), s);
      if k.Some? {
        ResignAt(v, s, k.value);
        var game := games[k.value];
        assert v.games[k.value] == SessionView(game.player1, game.player2, game.engine.board);
        var resigningPlayer := if game.player1 == s then White else Black;
        var winner := if resigningPlayer == White then Black else White;
        NotifyBoth(game.player1, game.player2, GameOver(Some(winner)));
        FilterOut(k.value);
      }
    }

    /** `games.filter(g => g !== game)` for the k-th game. */
    method FilterOut(k: nat)
      requires Valid() && k < |games|
      modifies this
      ensures Valid()
      ensures games == Filter(old(games), old(games[k]))
      ensures View() == old(View()).(games := RemoveAt(old(View()).games, k))
    {
      ghost var v := View();
      FilterOneGame(games, k, rules, net);
      var kept := Filter(games, games[k]);
      assert ManagerView(Views(kept), pendingUser, users) == v.(games := RemoveAt(v.games, k));
      games := kept;
    }
  }

  /** Every game of `gs` sends through `net` and plays by `rules`. */
  ghost predicate Wired(gs: seq<Session.Game>, rules: Rules, net: Transport) {
    forall i :: 0 <= i < |gs| ==> gs[i].net == net && gs[i].engine.rules == rules
  }

  ghost predicate EnginesDistinct(gs: seq<Session.Game>) {
    forall i, j :: 0 <= i < j < |gs| ==> gs[i].engine != gs[j].engine
  }

  /** Views that agree with `before` everywhere but at k are `before`
      with the k-th view replaced. */
  lemma OneBoardMoved(gs: seq<Session.Game>, k: nat, before: seq<SessionView>)
    requires k < |gs| == |before|
    requires forall j :: 0 <= j < |gs| && j != k ==>
               before[j] == SessionView(gs[j].player1, gs[j].player2, gs[j].engine.board)
    ensures Views(gs) == before[k := SessionView(gs[k].player1, gs[k].player2, gs[k].engine.board)]
  {
  }

  lemma RemovePreservesValid(gs: seq<Session.Game>, k: nat, rules: Rules, net: Transport)
    requires k < |gs| && Wired(gs, rules, net) && EnginesDistinct(gs)
    ensures Wired(gs[..k] + gs[k + 1..], rules, net) && EnginesDistinct(gs[..k] + gs[k + 1..])
  {
    var r := gs[..k] + gs[k + 1..];
    assert forall i :: 0 <= i < |r| ==> r[i] == gs[if i < k then i else i + 1];
  }

  /** Filtering out the k-th of pairwise distinct games removes index k,
      in the views too, and keeps the manager's invariant. */
  lemma FilterOneGame(gs: seq<Session.Game>, k: nat, rules: Rules, net: Transport)
    requires k < |gs| && Wired(gs, rules, net) && EnginesDistinct(gs)
    ensures Views(Filter(gs, gs[k])) == RemoveAt(Views(gs), k)
    ensures Wired(Filter(gs, gs[k]), rules, net) && EnginesDistinct(Filter(gs, gs[k]))
  {
    FilterDistinct(gs, k);
    ViewsRemoveAt(gs, k);
    RemovePreservesValid(gs, k, rules, net);
  }

  lemma AppendPreservesValid(gs: seq<Session.Game>, g: Session.Game, rules: Rules, net: Transport)
    requires Wired(gs, rules, net) && EnginesDistinct(gs)
    requires g.net == net && g.engine.rules == rules
    requires forall i :: 0 <= i < |gs| ==> gs[i].engine != g.engine
    ensures Wired(gs + [g], rules, net) && EnginesDistinct(gs + [g])
  {
    var r := gs + [g];
    assert forall i :: 0 <= i < |r| ==> r[i] == if i < |gs| then gs[i] else g;
  }

  lemma ViewsRemoveAt(gs: seq<Session.Game>, k: nat)
    requires k < |gs|
    ensures Views(gs[..k] + gs[k + 1..]) == RemoveAt(Views(gs), k)
  {
    var a := Views(gs[..k] + gs[k + 1..]);
    var b := RemoveAt(Views(gs), k);
    assert |a| == |b|;
    forall j | 0 <= j < |a| ensures a[j] == b[j] {
      if j < k {
        assert (gs[..k] + gs[k + 1..])[j] == gs[j];
      } else {
        assert (gs[..k] + gs[k + 1..])[j] == gs[j + 1];
      }
    }
  }

  lemma ViewsAppend(gs: seq<Session.Game>, g: Session.Game)
    ensures Views(gs + [g]) == Views(gs) + [SessionView(g.player1, g.player2, g.engine.board)]
  {
    var a := Views(gs + [g]);
    var b := Views(gs) + [SessionView(g.player1, g.player2, g.engine.board)];
    assert |a| == |b|;
    forall j | 0 <= j < |a| ensures a[j] == b[j] {
      assert (gs + [g])[j] == if j < |gs| then gs[j] else g;
    }
  }
}
