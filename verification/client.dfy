/**
 The client mirror: the client id the server announced, a map from server
 entity to the local entity spawned for it, and the position of each local
 entity. One run of the message system drains the receive queue in arrival
 order. A spawn only reserves its local entity: the entity gets its
 transform when the run's deferred commands are applied, after the drain.
 The source's `unwrap` panics are the error results.
 */
module Client {

  import opened Protocol
  import W = Wrappers

  /** A locally spawned entity, opaque except for being fresh. */
  type Handle = nat

  /**
   `ConnectionInfo.client_id`, `EntityMap.map`, the translation of each
   local entity that has its components, the translation of each local
   entity spawned during the current drain (still a deferred command), and
   the next fresh local entity id.
   */
  datatype Mirror = Mirror(
    clientId: W.Option<ClientId>,
    entityMap: map<EntityId, Handle>,
    positions: map<Handle, Vec3>,
    pending: map<Handle, Vec3>,
    nextHandle: nat)

  /** Why applying a message failed. */
  datatype MirrorError =
    | UnmappedEntity(entity: EntityId)   // `entity_map.map.get(..).unwrap()` on a missing key
    | MissingHandle(handle: Handle)      // `query_rect.get_mut(..).unwrap()` on an entity without a transform
    | NoHandler(msg: ServerMessage)      // the message has no arm in the match

  /**
   Every mapped entity has a local entity, placed or pending; no two server
   entities share one; placed and pending entities are disjoint; and every
   local entity was issued before `nextHandle`.
   */
  predicate Valid(m: Mirror)
  {
    && (forall e :: e in m.entityMap ==> m.entityMap[e] in m.positions || m.entityMap[e] in m.pending)
    && (forall e1, e2 :: e1 in m.entityMap && e2 in m.entityMap && e1 != e2 ==> m.entityMap[e1] != m.entityMap[e2])
    && (forall h :: h in m.positions ==> h < m.nextHandle && h !in m.pending)
    && (forall h :: h in m.pending ==> h < m.nextHandle)
  }

  /** Between two runs of the message system no spawn is pending. */
  predicate Settled(m: Mirror)
  {
    m.pending == map[]
  }

  /** The mirror before any message: no client id and no mapped entity. */
  function Init(): (m: Mirror)
    ensures Valid(m) && Settled(m)
    ensures m.clientId.None? && m.entityMap == map[]
  {
    Mirror(W.None, map[], map[], map[], 0)
  }

  /** Apply one server message within a drain. */
  function Apply(m: Mirror, msg: ServerMessage): (r: W.Result<Mirror, MirrorError>)
    ensures msg.InitClient? ==>
              && r.Ok?
              && r.value.clientId == W.Some(msg.clientId)
              && r.value.entityMap == m.entityMap
              && r.value.positions == m.positions
              && r.value.pending == m.pending
    ensures msg.SpawnRect? ==>
              && r.Ok?
              && r.value.clientId == m.clientId
              && r.value.entityMap.Keys == m.entityMap.Keys + {msg.entity}
              && r.value.entityMap[msg.entity] in r.value.pending
              && r.value.pending[r.value.entityMap[msg.entity]] == msg.pos
              && r.value.positions == m.positions
              && (forall e :: e in m.entityMap && e != msg.entity ==> r.value.entityMap[e] == m.entityMap[e])
              && (Valid(m) ==>
                    && r.value.entityMap[msg.entity] !in m.positions
                    && r.value.entityMap[msg.entity] !in m.pending
                    && forall h :: h in m.pending ==> h in r.value.pending && r.value.pending[h] == m.pending[h])
              && r.value.pending == m.pending[r.value.entityMap[msg.entity] := msg.pos]
    ensures msg.RectMove? ==>
              && (r.Err? <==> msg.entity !in m.entityMap || m.entityMap[msg.entity] !in m.positions)
              && (msg.entity !in m.entityMap ==> r == W.Err(UnmappedEntity(msg.entity)))
              && (r.Ok? ==>
                    && r.value.clientId == m.clientId
                    && r.value.entityMap == m.entityMap
                    && r.value.pending == m.pending
                    && r.value.positions.Keys == m.positions.Keys
                    && r.value.positions[m.entityMap[msg.entity]] == msg.pos
                    && forall h :: h in m.positions && h != m.entityMap[msg.entity] ==> r.value.positions[h] == m.positions[h])
    ensures msg.DespawnRect? ==> r == W.Err(NoHandler(msg))
    ensures Valid(m) && r.Ok? ==> Valid(r.value)
  {
    match msg
    case InitClient(id) => W.Ok(m.(clientId := W.Some(id)))
    case SpawnRect(entity, pos) =>
      var h := m.nextHandle;
      W.Ok(m.(entityMap := m.entityMap[entity := h], pending := m.pending[h := pos], nextHandle := h + 1))
    case RectMove(entity, pos) =>
      if entity !in m.entityMap then W.Err(UnmappedEntity(entity))
      else
        var h := m.entityMap[entity];
        if h !in m.positions then W.Err(MissingHandle(h))
        else W.Ok(m.(positions := m.positions[h := pos]))
    case DespawnRect(_) => W.Err(NoHandler(msg))
  }

  /** Apply the deferred spawns: every pending local entity gets its transform. */
  function Flush(m: Mirror): (r: Mirror)
    ensures Settled(r)
    ensures r.clientId == m.clientId && r.entityMap == m.entityMap && r.nextHandle == m.nextHandle
    ensures r.positions.Keys == m.positions.Keys + m.pending.Keys
    ensures forall h :: h in m.pending ==> r.positions[h] == m.pending[h]
    ensures forall h :: h in m.positions && h !in m.pending ==> r.positions[h] == m.positions[h]
    ensures Valid(m) ==> Valid(r)
    ensures Settled(m) ==> r == m
  {
    var r := m.(positions := m.positions + m.pending, pending := map[]);
    assert Settled(m) ==> m.positions + m.pending == m.positions;
    r
  }

  /** Apply `msg` to a successful result; an error stays as it is. */
  function Then(r: W.Result<Mirror, MirrorError>, msg: ServerMessage): W.Result<Mirror, MirrorError>
  {
    match r
    case Err(e) => W.Err(e)
    case Ok(m) => Apply(m, msg)
  }

  /**
   On a valid mirror, a move fails exactly when its entity was never spawned
   or was spawned earlier in the same drain, so that its transform is still
   a deferred command.
   */
  lemma MoveFailsOnlyWhenUnmappedOrPending(m: Mirror, e: EntityId, pos: Vec3)
    requires Valid(m)
    ensures Apply(m, RectMove(e, pos)).Err? <==> e !in m.entityMap || m.entityMap[e] in m.pending
  {
  }

  /** A move overwrites the position rather than adding to it: applying it twice is applying it once. */
  lemma RectMoveIdempotent(m: Mirror, e: EntityId, pos: Vec3)
    ensures Then(Apply(m, RectMove(e, pos)), RectMove(e, pos)) == Apply(m, RectMove(e, pos))
  {
    var r := Apply(m, RectMove(e, pos));
    if r.Ok? {
      assert r.value.positions[m.entityMap[e] := pos] == r.value.positions;
    }
  }

  /** A second spawn of the same entity maps it to a new local entity, leaving the old one orphaned. */
  lemma DuplicateSpawnReplaces(m: Mirror, e: EntityId, p1: Vec3, p2: Vec3)
    requires Valid(m)
    ensures var r := Then(Apply(m, SpawnRect(e, p1)), SpawnRect(e, p2));
            && r.Ok?
            && r.value.entityMap.Keys == m.entityMap.Keys + {e}
            && r.value.pending[r.value.entityMap[e]] == p2
            && Apply(m, SpawnRect(e, p1)).value.entityMap[e] in r.value.pending
            && Apply(m, SpawnRect(e, p1)).value.entityMap[e] != r.value.entityMap[e]
  {
  }

  /** Apply a queue of messages in arrival order; the first failure stops. */
  function Receive(m: Mirror, queue: seq<ServerMessage>): (r: W.Result<Mirror, MirrorError>)
    ensures Valid(m) && r.Ok? ==> Valid(r.value)
    decreases |queue|
  {
    if queue == [] then W.Ok(m)
    else
      match Apply(m, queue[0])
      case Err(e) => W.Err(e)
      case Ok(m') => Receive(m', queue[1..])
  }

  /** Receiving two queues one after the other is receiving their concatenation. */
  lemma {:induction false} ReceiveAppend(m: Mirror, q1: seq<ServerMessage>, q2: seq<ServerMessage>)
    ensures Receive(m, q1 + q2)
         == (match Receive(m, q1)
             case Err(e) => W.Err(e)
             case Ok(m') => Receive(m', q2))
    decreases |q1|
  {
    if q1 == [] {
      assert q1 + q2 == q2;
    } else {
      assert (q1 + q2)[1..] == q1[1..] + q2;
      match Apply(m, q1[0])
      case Err(e) =>
      case Ok(m') => ReceiveAppend(m', q1[1..], q2);
    }
  }

  /**
   One run of the message system: receive the whole queue, then apply the
   deferred spawns.
   */
  function Drain(m: Mirror, queue: seq<ServerMessage>): (r: W.Result<Mirror, MirrorError>)
    ensures r.Ok? ==> Settled(r.value)
    ensures Valid(m) && r.Ok? ==> Valid(r.value)
    ensures r.Ok? <==> Receive(m, queue).Ok?
  {
    match Receive(m, queue)
    case Err(e) => W.Err(e)
    case Ok(m') => W.Ok(Flush(m'))
  }

  /**
   One drain of `q1 + q2` is the first queue received, then the second,
   and only then the deferred spawns applied; two drains apply the spawns
   of `q1` in between.
   */
  lemma DrainSplit(m: Mirror, q1: seq<ServerMessage>, q2: seq<ServerMessage>)
    ensures Drain(m, q1 + q2)
         == (match Receive(m, q1)
             case Err(e) => W.Err(e)
             case Ok(m') => Drain(m', q2))
    ensures (match Drain(m, q1)
             case Err(e) => W.Err(e)
             case Ok(m') => Drain(m', q2))
         == (match Receive(m, q1)
             case Err(e) => W.Err(e)
             case Ok(m') => Drain(Flush(m'), q2))
  {
    ReceiveAppend(m, q1, q2);
  }

  /**
   A spawn followed by a move of the same entity in one drain fails, since
   the new local entity has no transform yet; in two drains the move succeeds.
   */
  lemma SpawnThenMoveInOneDrainFails(e: EntityId, p: Vec3, q: Vec3)
    ensures Drain(Init(), [SpawnRect(e, p), RectMove(e, q)]) == W.Err(MissingHandle(0))
    ensures Drain(Init(), [SpawnRect(e, p)]) == W.Ok(Mirror(W.None, map[e := 0], map[0 := p], map[], 1))
    ensures Drain(Mirror(W.None, map[e := 0], map[0 := p], map[], 1), [RectMove(e, q)])
         == W.Ok(Mirror(W.None, map[e := 0], map[0 := q], map[], 1))
  {
    var m1 := Apply(Init(), SpawnRect(e, p)).value;
    assert m1 == Mirror(W.None, map[e := 0], map[], map[0 := p], 1);
    assert [SpawnRect(e, p), RectMove(e, q)][1..] == [RectMove(e, q)];
    assert Receive(m1, [RectMove(e, q)]) == W.Err(MissingHandle(0));
    assert Receive(Init(), [SpawnRect(e, p)]) == Receive(m1, []);
    assert map[] + map[0 := p] == map[0 := p];
    var m := Mirror(W.None, map[e := 0], map[0 := p], map[], 1);
    var m2 := Mirror(W.None, map[e := 0], map[0 := q], map[], 1);
    assert map[0 := p][0 := q] == map[0 := q];
    assert Apply(m, RectMove(e, q)) == W.Ok(m2);
    assert Receive(m, [RectMove(e, q)]) == Receive(m2, []);
    assert Flush(m2) == m2;
  }

  /** The message system's loop: receive and apply until the queue is empty, then apply the deferred spawns. */
  method HandleServerMessages(m: Mirror, queue: seq<ServerMessage>) returns (r: W.Result<Mirror, MirrorError>)
    ensures r == Drain(m, queue)
  {
    var current := m;
    var i := 0;
    while i < |queue|
      invariant 0 <= i <= |queue|
      invariant Receive(m, queue) == Receive(current, queue[i..])
    {
      assert queue[i..][1..] == queue[i + 1..];
      var next := Apply(current, queue[i]);
      if next.Err? {
        return next;
      }
      current := next.value;
      i := i + 1;
    }
    return W.Ok(Flush(current));
  }
}
