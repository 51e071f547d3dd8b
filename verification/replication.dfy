/**
 How the server's outbox drives a client mirror: the messages one client
 receives, when its mirror agrees with the server's positions, and why a
 client that joins after another one, or that receives its own spawn and
 the next tick's moves in one drain, fails.
 */
module Replication {

  import opened Protocol
  import W = Wrappers
  import S = Server
  import C = Client

  /** The messages of an outbox addressed to client `c`, in send order. */
  function InboxOf(out: seq<S.Outgoing>, c: ClientId): (r: seq<ServerMessage>)
    ensures |r| <= |out|
    ensures (forall k :: 0 <= k < |out| ==> c in out[k].recipients) ==>
              |r| == |out| && forall k :: 0 <= k < |r| ==> r[k] == out[k].msg
    ensures (forall k :: 0 <= k < |out| ==> c !in out[k].recipients) ==> r == []
    decreases |out|
  {
    if out == [] then []
    else (if c in out[0].recipients then [out[0].msg] else []) + InboxOf(out[1..], c)
  }

  /**
   A message is in `c`'s inbox exactly when it was sent in the outbox to a
   recipient set holding `c`.
   */
  lemma {:induction false} InboxOfMembers(out: seq<S.Outgoing>, c: ClientId, msg: ServerMessage)
    ensures msg in InboxOf(out, c) <==> exists k :: 0 <= k < |out| && c in out[k].recipients && out[k].msg == msg
    decreases |out|
  {
    if out != [] {
      var tail := out[1..];
      InboxOfMembers(tail, c, msg);
      assert InboxOf(out, c) == (if c in out[0].recipients then [out[0].msg] else []) + InboxOf(tail, c);
      if msg in InboxOf(tail, c) {
        var k :| 0 <= k < |tail| && c in tail[k].recipients && tail[k].msg == msg;
        assert out[k + 1] == tail[k];
      }
      if exists k :: 0 <= k < |out| && c in out[k].recipients && out[k].msg == msg {
        var k :| 0 <= k < |out| && c in out[k].recipients && out[k].msg == msg;
        if k > 0 {
          assert out[k] == tail[k - 1];
        }
      }
    }
  }

  /** The inbox of two outboxes sent one after the other is the two inboxes in that order. */
  lemma {:induction false} InboxOfAppend(a: seq<S.Outgoing>, b: seq<S.Outgoing>, c: ClientId)
    ensures InboxOf(a + b, c) == InboxOf(a, c) + InboxOf(b, c)
    decreases |a|
  {
    if a == [] {
      assert a + b == b;
    } else {
      var head := if c in a[0].recipients then [a[0].msg] else [];
      assert (a + b)[0] == a[0] && (a + b)[1..] == a[1..] + b;
      assert InboxOf(a + b, c) == head + InboxOf(a[1..] + b, c);
      InboxOfAppend(a[1..], b, c);
      assert InboxOf(a, c) == head + InboxOf(a[1..], c);
    }
  }

  /**
   The mirror holds, for every entity of `es`, a local entity at the
   position the server holds for it.
   */
  predicate Tracks(m: C.Mirror, s: S.Server, es: set<EntityId>)
  {
    forall e :: e in es ==>
      && e in s.rects
      && e in m.entityMap
      && m.entityMap[e] in m.positions
      && m.positions[m.entityMap[e]] == s.rects[e].pos
  }

  /** The position of the last move of `e` in `msgs`, or `dflt` when there is none. */
  function LastPos(msgs: seq<ServerMessage>, e: EntityId, dflt: Vec3): Vec3
    decreases |msgs|
  {
    if msgs == [] then dflt
    else
      var last := msgs[|msgs| - 1];
      if last.RectMove? && last.entity == e then last.pos
      else LastPos(msgs[..|msgs| - 1], e, dflt)
  }

  /** Receiving a single message is applying it. */
  lemma ReceiveOne(m: C.Mirror, msg: ServerMessage)
    ensures C.Receive(m, [msg]) == C.Apply(m, msg)
  {
    assert [msg][1..] == [];
  }

  /**
   Moves of placed entities all succeed on a valid mirror; afterwards each
   mapped entity sits where its last move put it and nothing else changed.
   */
  lemma {:induction false} ReceiveMoves(m: C.Mirror, msgs: seq<ServerMessage>)
    requires C.Valid(m)
    requires forall k :: 0 <= k < |msgs| ==>
               msgs[k].RectMove? && msgs[k].entity in m.entityMap && m.entityMap[msgs[k].entity] in m.positions
    ensures C.Receive(m, msgs).Ok?
    ensures C.Receive(m, msgs).value.clientId == m.clientId
    ensures C.Receive(m, msgs).value.entityMap == m.entityMap
    ensures C.Receive(m, msgs).value.pending == m.pending
    ensures C.Receive(m, msgs).value.nextHandle == m.nextHandle
    ensures C.Receive(m, msgs).value.positions.Keys == m.positions.Keys
    ensures forall e :: e in m.entityMap && m.entityMap[e] in m.positions ==>
              C.Receive(m, msgs).value.positions[m.entityMap[e]] == LastPos(msgs, e, m.positions[m.entityMap[e]])
    decreases |msgs|
  {
    if msgs == [] {
    } else {
      var prefix := msgs[..|msgs| - 1];
      var last := msgs[|msgs| - 1];
      assert msgs == prefix + [last];
      ReceiveMoves(m, prefix);
      var mid := C.Receive(m, prefix).value;
      C.ReceiveAppend(m, prefix, [last]);
      ReceiveOne(mid, last);
      assert C.Receive(m, msgs) == C.Apply(mid, last);
    }
  }

  /**
   A move of an entity that is unmapped, or whose local entity is still a
   deferred spawn, makes the receive fail.
   */
  lemma {:induction false} ReceiveMovesFails(m: C.Mirror, msgs: seq<ServerMessage>, j: nat)
    requires C.Valid(m)
    requires forall k :: 0 <= k < |msgs| ==> msgs[k].RectMove?
    requires j < |msgs| && (msgs[j].entity !in m.entityMap || m.entityMap[msgs[j].entity] in m.pending)
    ensures C.Receive(m, msgs).Err?
    decreases |msgs|
  {
    if msgs[0].entity in m.entityMap && m.entityMap[msgs[0].entity] in m.positions {
      var next := C.Apply(m, msgs[0]);
      assert msgs[1..][j - 1] == msgs[j];
      ReceiveMovesFails(next.value, msgs[1..], j - 1);
    }
  }

  /** The last announced position of each entity in a tick's moves is its new position. */
  lemma {:induction false} LastPosOfAnnounced(msgs: seq<ServerMessage>, reg: seq<EntityId>,
                                              rects: map<EntityId, S.Rect>, e: EntityId, dflt: Vec3)
    requires |msgs| == |reg|
    requires forall k :: 0 <= k < |reg| ==> reg[k] in rects && msgs[k] == RectMove(reg[k], rects[reg[k]].pos)
    ensures LastPos(msgs, e, dflt) == if e in reg then rects[e].pos else dflt
    decreases |msgs|
  {
    if msgs != [] {
      var n := |msgs| - 1;
      assert forall x :: x in reg <==> x in reg[..n] || x == reg[n];
      LastPosOfAnnounced(msgs[..n], reg[..n], rects, e, dflt);
    }
  }

  /** What a registered client receives from a tick: one move per moved entity, in order. */
  lemma TickInbox(s: S.Server, order: seq<EntityId>, step: int, c: ClientId)
    requires S.IsQueryOrder(s.rects, order)
    requires c in s.players
    ensures var t := S.Tick(s, order, step);
            var reg := S.Registered(s.players, s.rects, order);
            var inbox := InboxOf(t.outbox, c);
            && |inbox| == |reg|
            && forall k :: 0 <= k < |reg| ==>
                 reg[k] in t.server.rects && inbox[k] == RectMove(reg[k], t.server.rects[reg[k]].pos)
  {
  }

  /**
   Receiving a tick's moves on a mirror that tracks every entity the tick
   moves succeeds, and the mirror then tracks the new positions.
   */
  lemma TickReceive(s: S.Server, order: seq<EntityId>, step: int, m: C.Mirror, c: ClientId, es: set<EntityId>)
    requires S.IsQueryOrder(s.rects, order)
    requires C.Valid(m) && Tracks(m, s, es)
    requires c in s.players
    requires forall e :: e in s.rects && s.rects[e].client in s.players ==> e in es
    ensures var r := C.Receive(m, InboxOf(S.Tick(s, order, step).outbox, c));
            && r.Ok?
            && r.value.clientId == m.clientId
            && r.value.entityMap == m.entityMap
            && r.value.pending == m.pending
            && Tracks(r.value, S.Tick(s, order, step).server, es)
  {
    var t := S.Tick(s, order, step);
    var reg := S.Registered(s.players, s.rects, order);
    var inbox := InboxOf(t.outbox, c);
    TickInbox(s, order, step, c);
    ReceiveMoves(m, inbox);
    var m' := C.Receive(m, inbox).value;
    forall e | e in es
      ensures m'.positions[m'.entityMap[e]] == t.server.rects[e].pos
    {
      LastPosOfAnnounced(inbox, reg, t.server.rects, e, m.positions[m.entityMap[e]]);
    }
  }

  /**
   A tick keeps a registered client's mirror in agreement with the server,
   provided the mirror, between two drains, already tracks every entity the
   tick moves.
   */
  lemma TickKeepsMirrorInSync(s: S.Server, order: seq<EntityId>, step: int, m: C.Mirror, c: ClientId, es: set<EntityId>)
    requires S.IsQueryOrder(s.rects, order)
    requires C.Valid(m) && C.Settled(m) && Tracks(m, s, es)
    requires c in s.players
    requires forall e :: e in s.rects && s.rects[e].client in s.players ==> e in es
    ensures var t := S.Tick(s, order, step);
            var r := C.Drain(m, InboxOf(t.outbox, c));
            && r.Ok?
            && C.Valid(r.value)
            && r.value.clientId == m.clientId
            && r.value.entityMap == m.entityMap
            && Tracks(r.value, t.server, es)
  {
    var inbox := InboxOf(S.Tick(s, order, step).outbox, c);
    TickReceive(s, order, step, m, c, es);
    var m' := C.Receive(m, inbox).value;
    assert C.Settled(m');
    assert C.Drain(m, inbox) == W.Ok(m');
  }

  /**
   A registered client's mirror that lacks an entity the tick moves, or
   holds it only as a deferred spawn, fails on that tick's messages.
   */
  lemma TickFailsOnUnplacedEntity(s: S.Server, order: seq<EntityId>, step: int, m: C.Mirror, c: ClientId, e: EntityId)
    requires S.IsQueryOrder(s.rects, order)
    requires C.Valid(m)
    requires c in s.players
    requires e in s.rects && s.rects[e].client in s.players
    requires e !in m.entityMap || m.entityMap[e] in m.pending
    ensures C.Receive(m, InboxOf(S.Tick(s, order, step).outbox, c)).Err?
    ensures C.Drain(m, InboxOf(S.Tick(s, order, step).outbox, c)).Err?
  {
    var t := S.Tick(s, order, step);
    var reg := S.Registered(s.players, s.rects, order);
    var inbox := InboxOf(t.outbox, c);
    TickInbox(s, order, step, c);
    var j :| 0 <= j < |reg| && reg[j] == e;
    ReceiveMovesFails(m, inbox, j);
  }

  /**
   Receiving a connection's messages: every client registered afterwards
   (the new one included) records the NEW client's id as its own, and maps
   the new entity to a deferred spawn at the origin, keeping every entity it
   tracked.
   */
  lemma ConnectInbox(s: S.Server, id: ClientId, m: C.Mirror, c: ClientId, es: set<EntityId>)
    requires S.Valid(s) && C.Valid(m) && Tracks(m, s, es)
    requires c in s.players || c == id
    ensures var j := S.Connect(s, id);
            var e := j.outbox[1].msg.entity;
            var r := C.Receive(m, InboxOf(j.outbox, c));
            && r.Ok?
            && C.Valid(r.value)
            && r.value.clientId == W.Some(id)
            && r.value.entityMap.Keys == m.entityMap.Keys + {e}
            && r.value.entityMap[e] in r.value.pending
            && r.value.pending[r.value.entityMap[e]] == Zero
            && Tracks(r.value, j.server, es)
  {
    var j := S.Connect(s, id);
    var init := j.outbox[0].msg;
    var spawn := j.outbox[1].msg;
    var inbox := InboxOf(j.outbox, c);
    assert inbox == [init] + [spawn];
    var m1 := C.Apply(m, init).value;
    var m2 := C.Apply(m1, spawn).value;
    C.ReceiveAppend(m, [init], [spawn]);
    ReceiveOne(m, init);
    ReceiveOne(m1, spawn);
    assert C.Receive(m, inbox) == W.Ok(m2);
    forall x | x in es
      ensures x in m2.entityMap && m2.entityMap[x] in m2.positions && m2.positions[m2.entityMap[x]] == j.server.rects[x].pos
    {
      assert x != spawn.entity;
    }
  }

  /**
   After a drain of a connection's messages, every client registered
   afterwards records the NEW client's id as its own, and mirrors the new
   entity at the origin while keeping every entity it tracked.
   */
  lemma ConnectKeepsMirrorInSync(s: S.Server, id: ClientId, m: C.Mirror, c: ClientId, es: set<EntityId>)
    requires S.Valid(s) && C.Valid(m) && Tracks(m, s, es)
    requires c in s.players || c == id
    ensures var j := S.Connect(s, id);
            var r := C.Drain(m, InboxOf(j.outbox, c));
            && r.Ok?
            && C.Valid(r.value)
            && r.value.clientId == W.Some(id)
            && r.value.entityMap.Keys == m.entityMap.Keys + {j.outbox[1].msg.entity}
            && Tracks(r.value, j.server, es + {j.outbox[1].msg.entity})
  {
    var j := S.Connect(s, id);
    var e := j.outbox[1].msg.entity;
    ConnectInbox(s, id, m, c, es);
    var m2 := C.Receive(m, InboxOf(j.outbox, c)).value;
    var m3 := C.Flush(m2);
    assert C.Drain(m, InboxOf(j.outbox, c)) == W.Ok(m3);
    forall x | x in es + {e}
      ensures x in m3.entityMap && m3.entityMap[x] in m3.positions && m3.positions[m3.entityMap[x]] == j.server.rects[x].pos
    {
      if x != e {
        assert m2.entityMap[x] in m2.positions && m2.entityMap[x] !in m2.pending;
      }
    }
  }

  /** Losing a connection sends nothing, so every mirror still tracks the server. */
  lemma LostKeepsMirrorInSync(s: S.Server, id: ClientId, m: C.Mirror, c: ClientId, es: set<EntityId>)
    requires S.Valid(s) && C.Settled(m) && Tracks(m, s, es)
    ensures var l := S.ConnectionLost(s, id);
            C.Drain(m, InboxOf(l.outbox, c)) == W.Ok(m) && Tracks(m, l.server, es)
  {
  }

  /**
   A client joining while another client's entity is live receives no spawn
   for that entity (there is no catch-up), so its mirror fails on the very
   next tick, which announces a move of it.
   */
  lemma LateJoinerFailsOnNextTick(s: S.Server, id: ClientId, e: EntityId, order: seq<EntityId>, step: int)
    requires S.Valid(s)
    requires e in s.rects && s.rects[e].client in s.players
    requires S.IsQueryOrder(S.Connect(s, id).server.rects, order)
    ensures var j := S.Connect(s, id);
            var joined := C.Drain(C.Init(), InboxOf(j.outbox, id));
            && joined.Ok?
            && e !in joined.value.entityMap
            && C.Drain(joined.value, InboxOf(S.Tick(j.server, order, step).outbox, id)).Err?
  {
    var j := S.Connect(s, id);
    ConnectKeepsMirrorInSync(s, id, C.Init(), id, {});
    var joined := C.Drain(C.Init(), InboxOf(j.outbox, id)).value;
    TickFailsOnUnplacedEntity(j.server, order, step, joined, id, e);
  }

  /**
   When a client's connection messages and the next tick's moves arrive in
   the same drain, the move of its own new entity finds a local entity
   without a transform, and the drain fails.
   */
  lemma JoinAndTickInOneDrainFails(s: S.Server, id: ClientId, m: C.Mirror, order: seq<EntityId>, step: int)
    requires S.Valid(s) && C.Valid(m)
    requires S.IsQueryOrder(S.Connect(s, id).server.rects, order)
    ensures var j := S.Connect(s, id);
            var t := S.Tick(j.server, order, step);
            C.Drain(m, InboxOf(j.outbox + t.outbox, id)).Err?
  {
    var j := S.Connect(s, id);
    var t := S.Tick(j.server, order, step);
    JoinedMirrorFailsOnTick(s, id, m, order, step);
    InboxOfAppend(j.outbox, t.outbox, id);
    ReceiveFailsAfter(m, InboxOf(j.outbox, id), InboxOf(t.outbox, id));
  }

  /** The mirror left by a connection's messages fails on the next tick's moves. */
  lemma JoinedMirrorFailsOnTick(s: S.Server, id: ClientId, m: C.Mirror, order: seq<EntityId>, step: int)
    requires S.Valid(s) && C.Valid(m)
    requires S.IsQueryOrder(S.Connect(s, id).server.rects, order)
    ensures var j := S.Connect(s, id);
            var r := C.Receive(m, InboxOf(j.outbox, id));
            && r.Ok?
            && C.Receive(r.value, InboxOf(S.Tick(j.server, order, step).outbox, id)).Err?
  {
    var j := S.Connect(s, id);
    ConnectInbox(s, id, m, id, {});
    var m2 := C.Receive(m, InboxOf(j.outbox, id)).value;
    TickFailsOnUnplacedEntity(j.server, order, step, m2, id, j.outbox[1].msg.entity);
  }

  /** A receive that succeeds on `q1` and then fails on `q2` fails on `q1 + q2`, and so does the drain. */
  lemma ReceiveFailsAfter(m: C.Mirror, q1: seq<ServerMessage>, q2: seq<ServerMessage>)
    requires C.Receive(m, q1).Ok? && C.Receive(C.Receive(m, q1).value, q2).Err?
    ensures C.Drain(m, q1 + q2).Err?
  {
    C.ReceiveAppend(m, q1, q2);
  }
}
