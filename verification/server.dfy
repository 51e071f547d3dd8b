/**
 The authoritative server: a registry of connected players and the rect
 entities spawned for them, with four transitions. Each transition returns
 the new state together with the messages it hands to the transport, in
 send order, each addressed to the set of clients registered at that moment.
 */
module Server {

  import opened Protocol
  import opened Wrappers

  /** A registered client and the direction it last sent. */
  datatype Player = Player(direction: Direction)

  /**
   One spawned rect entity: its `Client` component (the owning client id)
   and its single position, which starts at the origin.
   */
  datatype Rect = Rect(client: ClientId, pos: Vec3)

  /** The registry: players by client id, rects by entity id, and the next fresh entity id. */
  datatype Server = Server(players: map<ClientId, Player>, rects: map<EntityId, Rect>, nextEntity: nat)

  /** A group message: the recipients and what is sent to them. */
  datatype Outgoing = Outgoing(recipients: set<ClientId>, msg: ServerMessage)

  /** The state after a transition and the messages it sent. */
  datatype Step = Step(server: Server, outbox: seq<Outgoing>)

  /** Error of the direction handler: the sender has no player entry (the source unwraps). */
  datatype ServerError = UnknownClient(id: ClientId)

  /** A direction message as received, tagged with its sender. */
  datatype Inbound = Inbound(from: ClientId, msg: ClientMessage)

  /** Every live entity id was issued before `nextEntity`, so `nextEntity` is fresh. */
  predicate Valid(s: Server)
  {
    forall e :: e in s.rects ==> e < s.nextEntity
  }

  /** The registry at start-up: no players and no entities. */
  function Init(): (s: Server)
    ensures Valid(s)
    ensures s.players == map[] && s.rects == map[]
  {
    Server(map[], map[], 0)
  }

  /** Register `id` with the default direction, replacing any entry it had. */
  function Register(players: map<ClientId, Player>, id: ClientId): (r: map<ClientId, Player>)
    ensures r.Keys == players.Keys + {id}
    ensures r[id].direction.None?
    ensures forall c :: c in players && c != id ==> r[c] == players[c]
  {
    players[id := Player(Direction.None)]
  }

  /** Spawn a rect for `id` at the origin under the fresh entity id `e`. */
  function SpawnFor(rects: map<EntityId, Rect>, e: EntityId, id: ClientId): (r: map<EntityId, Rect>)
    requires e !in rects
    ensures r.Keys == rects.Keys + {e}
    ensures |r| == |rects| + 1
    ensures r[e] == Rect(id, Zero)
    ensures forall x :: x in rects ==> r[x] == rects[x]
  {
    var r := rects[e := Rect(id, Zero)];
    assert r.Keys == rects.Keys + {e};
    r
  }

  // ----- connect -----------------------------------------------------------

  /**
   A connection event: register the client with direction `None`, spawn one
   rect owned by it at the origin, then send `InitClient` and `SpawnRect` to
   every registered player, the new one included.
   */
  function Connect(s: Server, id: ClientId): (r: Step)
    requires Valid(s)
    ensures Valid(r.server)
    ensures r.server.players.Keys == s.players.Keys + {id}
    ensures r.server.players[id].direction.None?
    ensures forall c :: c in s.players && c != id ==> r.server.players[c] == s.players[c]
    ensures forall e :: e in s.rects ==> e in r.server.rects && r.server.rects[e] == s.rects[e]
    ensures forall e :: e in r.server.rects && e !in s.rects ==> r.server.rects[e] == Rect(id, Zero)
    ensures |r.server.rects| == |s.rects| + 1
    ensures |r.outbox| == 2
    ensures r.outbox[0] == Outgoing(r.server.players.Keys, InitClient(id))
    ensures r.outbox[1].recipients == r.server.players.Keys
    ensures r.outbox[1].msg.SpawnRect?
    ensures r.outbox[1].msg.entity !in s.rects && r.outbox[1].msg.entity in r.server.rects
    ensures r.outbox[1].msg.pos == r.server.rects[r.outbox[1].msg.entity].pos
  {
    var players := Register(s.players, id);
    var entity := s.nextEntity;
    var rects := SpawnFor(s.rects, entity, id);
    Step(Server(players, rects, entity + 1),
         [Outgoing(players.Keys, InitClient(id)), Outgoing(players.Keys, SpawnRect(entity, Zero))])
  }

  /** The connection events of one update, in arrival order. */
  function ConnectAll(s: Server, ids: seq<ClientId>): (r: Step)
    requires Valid(s)
    ensures Valid(r.server)
    ensures r.server.players.Keys == s.players.Keys + set i | i in ids
    ensures forall c :: c in ids ==> r.server.players[c].direction.None?
    ensures forall c :: c in s.players && c !in ids ==> r.server.players[c] == s.players[c]
    ensures |r.server.rects| == |s.rects| + |ids|
    ensures forall e :: e in s.rects ==> e in r.server.rects && r.server.rects[e] == s.rects[e]
    ensures forall e :: e in r.server.rects && e !in s.rects ==> r.server.rects[e].client in ids && r.server.rects[e].pos == Zero
    ensures |r.outbox| == 2 * |ids|
    decreases |ids|
  {
    if ids == [] then Step(s, [])
    else
      var first := Connect(s, ids[0]);
      var rest := ConnectAll(first.server, ids[1..]);
      assert forall i :: i in ids <==> i == ids[0] || i in ids[1..];
      Step(rest.server, first.outbox + rest.outbox)
  }

  /** The players registered once the first `n` of the connection events `ids` have been handled on top of `base`. */
  function JoinedAfter(base: set<ClientId>, ids: seq<ClientId>, n: nat): set<ClientId>
    requires n <= |ids|
  {
    base + set i | i in ids[..n]
  }

  /** Handling the first event moves its client into the base. */
  lemma JoinedAfterShift(base: set<ClientId>, ids: seq<ClientId>, n: nat)
    requires 0 < n <= |ids|
    ensures JoinedAfter(base, ids, n) == JoinedAfter(base + {ids[0]}, ids[1..], n - 1)
  {
    assert ids[..n] == [ids[0]] + ids[1..][..n - 1];
  }

  /** A connection sequence is its first connection followed by the rest. */
  lemma ConnectAllUnfold(s: Server, ids: seq<ClientId>)
    requires Valid(s) && ids != []
    ensures ConnectAll(s, ids).server == ConnectAll(Connect(s, ids[0]).server, ids[1..]).server
    ensures ConnectAll(s, ids).outbox == Connect(s, ids[0]).outbox + ConnectAll(Connect(s, ids[0]).server, ids[1..]).outbox
  {
  }

  /** The two messages of the `i`-th connection event, and the rect it spawned. */
  predicate AnnouncesJoin(s: Server, ids: seq<ClientId>, i: nat, r: Step)
    requires i < |ids|
  {
    && 2 * i + 1 < |r.outbox|
    && r.outbox[2 * i] == Outgoing(JoinedAfter(s.players.Keys, ids, i + 1), InitClient(ids[i]))
    && r.outbox[2 * i + 1].recipients == JoinedAfter(s.players.Keys, ids, i + 1)
    && r.outbox[2 * i + 1].msg.SpawnRect?
    && r.outbox[2 * i + 1].msg.pos == Zero
    && r.outbox[2 * i + 1].msg.entity !in s.rects
    && r.outbox[2 * i + 1].msg.entity in r.server.rects
    && r.server.rects[r.outbox[2 * i + 1].msg.entity] == Rect(ids[i], Zero)
  }

  /**
   The `i`-th connection event sends, to everyone registered at that moment
   (the new client included), its `InitClient` and then a spawn at the
   origin of a fresh entity that the final state holds as that client's rect.
   */
  lemma {:induction false} ConnectAllMessages(s: Server, ids: seq<ClientId>, i: nat)
    requires Valid(s)
    requires i < |ids|
    ensures AnnouncesJoin(s, ids, i, ConnectAll(s, ids))
    decreases |ids|, 1
  {
    if i == 0 {
      ConnectAllFirstMessages(s, ids);
    } else {
      ConnectAllLaterMessages(s, ids, i);
    }
  }

  /** The first connection event's messages. */
  lemma ConnectAllFirstMessages(s: Server, ids: seq<ClientId>)
    requires Valid(s) && ids != []
    ensures AnnouncesJoin(s, ids, 0, ConnectAll(s, ids))
  {
    var first := Connect(s, ids[0]);
    var rest := ConnectAll(first.server, ids[1..]);
    ConnectAllUnfold(s, ids);
    AnnouncesFirst(s, ids, first, rest, ConnectAll(s, ids));
  }

  /** A later connection event's messages, from those of the rest of the sequence. */
  lemma ConnectAllLaterMessages(s: Server, ids: seq<ClientId>, i: nat)
    requires Valid(s) && 0 < i < |ids|
    ensures AnnouncesJoin(s, ids, i, ConnectAll(s, ids))
    decreases |ids|, 0
  {
    var first := Connect(s, ids[0]);
    var rest := ConnectAll(first.server, ids[1..]);
    ConnectAllMessages(first.server, ids[1..], i - 1);
    ConnectAllUnfold(s, ids);
    AnnouncesJoinShift(s, ids, i, first, rest, ConnectAll(s, ids));
  }

  /** The first connection event's messages, from the connection's own messages. */
  lemma AnnouncesFirst(s: Server, ids: seq<ClientId>, first: Step, rest: Step, whole: Step)
    requires ids != []
    requires |first.outbox| == 2
    requires whole == Step(rest.server, first.outbox + rest.outbox)
    requires first.server.players.Keys == s.players.Keys + {ids[0]}
    requires first.outbox[0] == Outgoing(first.server.players.Keys, InitClient(ids[0]))
    requires first.outbox[1].recipients == first.server.players.Keys && first.outbox[1].msg.SpawnRect? && first.outbox[1].msg.pos == Zero
    requires first.outbox[1].msg.entity !in s.rects && first.outbox[1].msg.entity in first.server.rects
    requires first.server.rects[first.outbox[1].msg.entity] == Rect(ids[0], Zero)
    requires forall e :: e in first.server.rects ==> e in rest.server.rects && rest.server.rects[e] == first.server.rects[e]
    ensures AnnouncesJoin(s, ids, 0, whole)
  {
    assert ids[..1] == [ids[0]];
    assert JoinedAfter(s.players.Keys, ids, 1) == first.server.players.Keys;
  }

  /** A later connection event's messages, from those of the rest of the sequence. */
  lemma AnnouncesJoinShift(s: Server, ids: seq<ClientId>, i: nat, first: Step, rest: Step, whole: Step)
    requires 0 < i < |ids|
    requires |first.outbox| == 2
    requires whole == Step(rest.server, first.outbox + rest.outbox)
    requires s.rects.Keys <= first.server.rects.Keys
    requires first.server.players.Keys == s.players.Keys + {ids[0]}
    requires AnnouncesJoin(first.server, ids[1..], i - 1, rest)
    ensures AnnouncesJoin(s, ids, i, whole)
  {
    JoinedAfterShift(s.players.Keys, ids, i + 1);
    assert whole.outbox[2 * i] == rest.outbox[2 * (i - 1)];
    assert whole.outbox[2 * i + 1] == rest.outbox[2 * (i - 1) + 1];
  }

  /** A connection-lost event: drop the player entry only; the rect stays and nothing is sent. */
  function ConnectionLost(s: Server, id: ClientId): (r: Step)
    requires Valid(s)
    ensures Valid(r.server)
    ensures r.server.players.Keys == s.players.Keys - {id}
    ensures forall c :: c in r.server.players ==> r.server.players[c] == s.players[c]
    ensures r.server.rects == s.rects
    ensures r.outbox == []
  {
    Step(s.(players := s.players - {id}), [])
  }

  /** The connection-lost events of one update, in arrival order. */
  function ConnectionLostAll(s: Server, ids: seq<ClientId>): (r: Step)
    requires Valid(s)
    ensures Valid(r.server)
    ensures r.server.players.Keys == s.players.Keys - set i | i in ids
    ensures forall c :: c in r.server.players ==> r.server.players[c] == s.players[c]
    ensures r.server.rects == s.rects
    ensures r.outbox == []
    decreases |ids|
  {
    if ids == [] then Step(s, [])
    else
      var first := ConnectionLost(s, ids[0]);
      assert forall i :: i in ids <==> i == ids[0] || i in ids[1..];
      ConnectionLostAll(first.server, ids[1..])
  }

  /**
   One `Update` schedule: every connection event is handled before any
   connection-lost event, so a client that connects and is lost in the
   same update ends unregistered, while its rect remains.
   */
  function Update(s: Server, connects: seq<ClientId>, losses: seq<ClientId>): (r: Step)
    requires Valid(s)
    ensures Valid(r.server)
    ensures forall c :: c in r.server.players <==> (c in s.players || c in connects) && c !in losses
    ensures forall c :: c in r.server.players && c in connects ==> r.server.players[c].direction.None?
    ensures forall c :: c in r.server.players && c !in connects ==> r.server.players[c] == s.players[c]
    ensures |r.server.rects| == |s.rects| + |connects|
    ensures forall e :: e in s.rects ==> e in r.server.rects && r.server.rects[e] == s.rects[e]
    ensures |r.outbox| == 2 * |connects|
  {
    var joined := ConnectAll(s, connects);
    var left := ConnectionLostAll(joined.server, losses);
    Step(left.server, joined.outbox + left.outbox)
  }

  // ----- direction messages ------------------------------------------------

  /** A direction message overwrites its sender's latched direction; an unknown sender is an error. */
  function HandleClientMessage(s: Server, from: ClientId, msg: ClientMessage): (r: Result<Server, ServerError>)
    ensures r.Ok? <==> from in s.players
    ensures r.Err? ==> r.error == UnknownClient(from)
    ensures r.Ok? ==> r.value.players.Keys == s.players.Keys
    ensures r.Ok? ==> r.value.players[from].direction == msg.direction
    ensures r.Ok? ==> forall c :: c in s.players && c != from ==> r.value.players[c] == s.players[c]
    ensures r.Ok? ==> r.value.rects == s.rects && r.value.nextEntity == s.nextEntity
  {
    if from !in s.players then Err(UnknownClient(from))
    else
      match msg
      case DirectionMessage(d) => Ok(s.(players := s.players[from := Player(d)]))
  }

  /** Drain received direction messages in order; the first unknown sender aborts the drain. */
  function HandleInbox(s: Server, inbox: seq<Inbound>): (r: Result<Server, ServerError>)
    ensures r.Ok? ==> r.value.players.Keys == s.players.Keys && r.value.rects == s.rects && r.value.nextEntity == s.nextEntity
    ensures r.Err? ==> r.error.id !in s.players && exists i :: 0 <= i < |inbox| && inbox[i].from == r.error.id
    decreases |inbox|
  {
    if inbox == [] then Ok(s)
    else
      match HandleClientMessage(s, inbox[0].from, inbox[0].msg)
      case Err(e) => Err(e)
      case Ok(s') =>
        var r := HandleInbox(s', inbox[1..]);
        assert r.Err? ==> exists i :: 1 <= i < |inbox| && inbox[i].from == r.error.id by {
          if r.Err? {
            var i :| 0 <= i < |inbox[1..]| && inbox[1..][i].from == r.error.id;
            assert inbox[i + 1] == inbox[1..][i];
          }
        }
        r
  }

  /** The direction of the last message from `c`, or `current` when `c` sent none. */
  function LatestDirection(inbox: seq<Inbound>, c: ClientId, current: Direction): Direction
    decreases |inbox|
  {
    if inbox == [] then current
    else if inbox[|inbox| - 1].from == c then inbox[|inbox| - 1].msg.direction
    else LatestDirection(inbox[..|inbox| - 1], c, current)
  }

  /** Draining one more message is one more handler call on the drained state. */
  lemma {:induction false} HandleInboxSnoc(s: Server, inbox: seq<Inbound>, m: Inbound)
    ensures HandleInbox(s, inbox + [m])
         == (match HandleInbox(s, inbox)
             case Err(e) => Err(e)
             case Ok(s') => HandleClientMessage(s', m.from, m.msg))
    decreases |inbox|
  {
    if inbox == [] {
      assert (inbox + [m])[1..] == [];
    } else {
      assert (inbox + [m])[1..] == inbox[1..] + [m];
      match HandleClientMessage(s, inbox[0].from, inbox[0].msg)
      case Err(e) =>
      case Ok(s') => HandleInboxSnoc(s', inbox[1..], m);
    }
  }

  /**
   Draining succeeds exactly when every sender is registered; then each
   player's direction is the one in its last message (last write wins) and
   nothing but directions changes.
   */
  lemma {:induction false} LastWriteWins(s: Server, inbox: seq<Inbound>)
    ensures HandleInbox(s, inbox).Ok? <==> forall i :: 0 <= i < |inbox| ==> inbox[i].from in s.players
    ensures HandleInbox(s, inbox).Ok? ==>
              && HandleInbox(s, inbox).value.players.Keys == s.players.Keys
              && HandleInbox(s, inbox).value.rects == s.rects
              && HandleInbox(s, inbox).value.nextEntity == s.nextEntity
              && forall c :: c in s.players ==>
                   HandleInbox(s, inbox).value.players[c].direction
                   == LatestDirection(inbox, c, s.players[c].direction)
    decreases |inbox|
  {
    if inbox == [] {
    } else {
      var prefix := inbox[..|inbox| - 1];
      var m := inbox[|inbox| - 1];
      assert inbox == prefix + [m];
      HandleInboxSnoc(s, prefix, m);
      LastWriteWins(s, prefix);
    }
  }

  // ----- fixed tick --------------------------------------------------------

  /** The step a direction applies in one tick of length `step` (`SPEED * delta_seconds`). */
  function Displacement(d: Direction, step: int): (v: Vec3)
    ensures v.z == 0
    ensures v.x == 0 || v.y == 0
    ensures d.None? ==> v == Zero
    ensures d.Up? || d.Down? ==> v.x == 0
    ensures d.Left? || d.Right? ==> v.y == 0
    ensures !d.None? ==> v.x + v.y == step || v.x + v.y == -step
  {
    match d
    case None => Zero
    case Up => Vec3(0, step, 0)
    case Down => Vec3(0, -step, 0)
    case Left => Vec3(-step, 0, 0)
    case Right => Vec3(step, 0, 0)
  }

  /** Opposite directions cancel, and up and right move along the positive axes. */
  lemma DisplacementSigns(p: Vec3, step: int)
    ensures p.Add(Displacement(Up, step)).Add(Displacement(Down, step)) == p
    ensures p.Add(Displacement(Right, step)).Add(Displacement(Left, step)) == p
    ensures Displacement(Up, step).y == step && Displacement(Right, step).x == step
  {
  }

  /** The rect after one tick: moved by its player's direction, or untouched when its client is unregistered. */
  function Advance(players: map<ClientId, Player>, rect: Rect, step: int): Rect
  {
    if rect.client in players then rect.(pos := rect.pos.Add(Displacement(players[rect.client].direction, step)))
    else rect
  }

  /** No entity id occurs twice. */
  predicate Distinct(order: seq<EntityId>)
  {
    forall i, j :: 0 <= i < j < |order| ==> order[i] != order[j]
  }

  /** An iteration order over all live rects, each once, as the engine's query supplies. */
  predicate IsQueryOrder(rects: map<EntityId, Rect>, order: seq<EntityId>)
  {
    && Distinct(order)
    && (forall i :: 0 <= i < |order| ==> order[i] in rects)
    && (forall e :: e in rects ==> e in order)
  }

  /** The entities of `order` whose client is registered: those the tick moves and announces. */
  function Registered(players: map<ClientId, Player>, rects: map<EntityId, Rect>, order: seq<EntityId>): (r: seq<EntityId>)
    requires forall i :: 0 <= i < |order| ==> order[i] in rects
    ensures forall e :: e in r <==> e in order && rects[e].client in players
    ensures Distinct(order) ==> Distinct(r)
    decreases |order|
  {
    if order == [] then []
    else
      var prefix := order[..|order| - 1];
      var e := order[|order| - 1];
      assert forall x :: x in order <==> x in prefix || x == e;
      Registered(players, rects, prefix) + (if rects[e].client in players then [e] else [])
  }

  /** Any two elements of `r` occur in `order` in the same relative order. */
  predicate KeepsOrderOf(r: seq<EntityId>, order: seq<EntityId>)
  {
    forall i, j :: 0 <= i < j < |r| ==>
      exists a, b :: 0 <= a < b < |order| && order[a] == r[i] && order[b] == r[j]
  }

  /** The registered entities keep the relative order they have in `order`. */
  lemma {:induction false} RegisteredKeepsOrder(players: map<ClientId, Player>, rects: map<EntityId, Rect>, order: seq<EntityId>)
    requires forall i :: 0 <= i < |order| ==> order[i] in rects
    ensures KeepsOrderOf(Registered(players, rects, order), order)
    decreases |order|
  {
    if order != [] {
      var n := |order| - 1;
      var prefix := order[..n];
      var r := Registered(players, rects, order);
      var rp := Registered(players, rects, prefix);
      RegisteredKeepsOrder(players, rects, prefix);
      assert r == rp + (if rects[order[n]].client in players then [order[n]] else []);
      forall i, j | 0 <= i < j < |r|
        ensures exists a, b :: 0 <= a < b < |order| && order[a] == r[i] && order[b] == r[j]
      {
        if j < |rp| {
          assert r[i] == rp[i] && r[j] == rp[j];
          var a, b :| 0 <= a < b < |prefix| && prefix[a] == rp[i] && prefix[b] == rp[j];
          assert order[a] == r[i] && order[b] == r[j];
        } else {
          assert r[i] == rp[i] && rp[i] in rp;
          var a :| 0 <= a < |prefix| && prefix[a] == rp[i];
          assert order[a] == r[i] && order[n] == r[j];
        }
      }
    }
  }

  /**
   The tick loop over `order`: each entity whose client is registered is
   moved, and its new position is broadcast to all players, whatever the
   displacement; the others are skipped.
   */
  function MoveRects(players: map<ClientId, Player>, rects: map<EntityId, Rect>, order: seq<EntityId>, step: int)
    : (r: (map<EntityId, Rect>, seq<Outgoing>))
    requires Distinct(order)
    requires forall i :: 0 <= i < |order| ==> order[i] in rects
    ensures r.0.Keys == rects.Keys
    ensures forall e :: e in rects ==> r.0[e] == if e in order then Advance(players, rects[e], step) else rects[e]
    ensures |r.1| == |Registered(players, rects, order)|
    decreases |order|
  {
    if order == [] then (rects, [])
    else
      var prefix := order[..|order| - 1];
      var e := order[|order| - 1];
      assert forall x :: x in order <==> x in prefix || x == e;
      assert e !in prefix;
      var done := MoveRects(players, rects, prefix, step);
      var rect := done.0[e];
      if rect.client !in players then done
      else
        var p := rect.pos.Add(Displacement(players[rect.client].direction, step));
        var moved := done.0[e := rect.(pos := p)];
        var out := done.1 + [Outgoing(players.Keys, RectMove(e, p))];
        (moved, out)
  }

  /**
   The tick loop sends one `RectMove` per processed rect, in iteration
   order, to all players, carrying the rect's final position.
   */
  lemma {:induction false} MoveRectsAnnounces(players: map<ClientId, Player>, rects: map<EntityId, Rect>, order: seq<EntityId>, step: int)
    requires Distinct(order)
    requires forall i :: 0 <= i < |order| ==> order[i] in rects
    ensures var r := MoveRects(players, rects, order, step);
            forall k :: 0 <= k < |r.1| ==>
              var e := Registered(players, rects, order)[k];
              e in r.0 && r.1[k] == Outgoing(players.Keys, RectMove(e, r.0[e].pos))
    decreases |order|
  {
    if order != [] {
      var prefix := order[..|order| - 1];
      var e := order[|order| - 1];
      assert forall x :: x in order <==> x in prefix || x == e;
      assert e !in prefix;
      MoveRectsAnnounces(players, rects, prefix, step);
      var done := MoveRects(players, rects, prefix, step);
      var reg := Registered(players, rects, prefix);
      var r := MoveRects(players, rects, order, step);
      if rects[e].client in players {
        assert Registered(players, rects, order) == reg + [e];
        assert forall x :: x in reg ==> x != e;
        forall k | 0 <= k < |r.1|
          ensures r.1[k] == Outgoing(players.Keys, RectMove(Registered(players, rects, order)[k], r.0[Registered(players, rects, order)[k]].pos))
        {
          if k < |reg| {
            assert r.1[k] == done.1[k] && reg[k] != e;
          }
        }
      } else {
        assert Registered(players, rects, order) == reg;
      }
    }
  }

  /**
   The fixed-update tick over every live rect in the engine's iteration
   order. Players and the entity set are untouched.
   */
  function Tick(s: Server, order: seq<EntityId>, step: int): (r: Step)
    requires IsQueryOrder(s.rects, order)
    ensures r.server.players == s.players && r.server.nextEntity == s.nextEntity
    ensures r.server.rects.Keys == s.rects.Keys
    ensures Valid(s) ==> Valid(r.server)
    ensures forall e :: e in s.rects && s.rects[e].client !in s.players ==> r.server.rects[e] == s.rects[e]
    ensures forall e :: e in s.rects && s.rects[e].client in s.players ==>
              && r.server.rects[e].client == s.rects[e].client
              && r.server.rects[e].pos
                 == s.rects[e].pos.Add(Displacement(s.players[s.rects[e].client].direction, step))
    ensures |r.outbox| == |Registered(s.players, s.rects, order)|
    ensures forall k :: 0 <= k < |r.outbox| ==>
              var e := Registered(s.players, s.rects, order)[k];
              e in r.server.rects && r.outbox[k] == Outgoing(s.players.Keys, RectMove(e, r.server.rects[e].pos))
  {
    var moved := MoveRects(s.players, s.rects, order, step);
    MoveRectsAnnounces(s.players, s.rects, order, step);
    Step(s.(rects := moved.0), moved.1)
  }

  /** The state a tick reaches does not depend on the engine's iteration order. */
  lemma TickStateIndependentOfOrder(s: Server, order1: seq<EntityId>, order2: seq<EntityId>, step: int)
    requires IsQueryOrder(s.rects, order1) && IsQueryOrder(s.rects, order2)
    ensures Tick(s, order1, step).server == Tick(s, order2, step).server
  {
    var r1 := Tick(s, order1, step).server;
    var r2 := Tick(s, order2, step).server;
    assert forall e :: e in r1.rects ==> r1.rects[e] == r2.rects[e];
  }

  /**
   A rect whose player holds `None` stays put, and the tick still
   broadcasts a `RectMove` carrying its unchanged position.
   */
  lemma StillRectIsStillAnnounced(s: Server, order: seq<EntityId>, step: int, e: EntityId)
    requires IsQueryOrder(s.rects, order)
    requires e in s.rects && s.rects[e].client in s.players
    requires s.players[s.rects[e].client].direction.None?
    ensures Tick(s, order, step).server.rects[e] == s.rects[e]
    ensures exists k :: 0 <= k < |Tick(s, order, step).outbox|
                     && Tick(s, order, step).outbox[k] == Outgoing(s.players.Keys, RectMove(e, s.rects[e].pos))
  {
    var t := Tick(s, order, step);
    var reg := Registered(s.players, s.rects, order);
    assert e in reg by {
      assert e in order;
    }
    var k :| 0 <= k < |reg| && reg[k] == e;
    assert t.server.rects[e] == s.rects[e] by {
      assert s.rects[e].pos.Add(Zero) == s.rects[e].pos;
    }
    assert t.outbox[k] == Outgoing(s.players.Keys, RectMove(e, s.rects[e].pos));
  }

  /** With a single rect whose client is registered, a tick moves it and sends exactly one move. */
  lemma TickSingleRect(s: Server, e: EntityId, step: int)
    requires s.rects.Keys == {e} && s.rects[e].client in s.players
    ensures IsQueryOrder(s.rects, [e])
    ensures Tick(s, [e], step).server.rects[e].pos == s.rects[e].pos.Add(Displacement(s.players[s.rects[e].client].direction, step))
    ensures Tick(s, [e], step).outbox == [Outgoing(s.players.Keys, RectMove(e, Tick(s, [e], step).server.rects[e].pos))]
  {
    assert IsQueryOrder(s.rects, [e]);
    assert Registered(s.players, s.rects, [e]) == [e];
  }
}
