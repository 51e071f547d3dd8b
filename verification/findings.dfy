/**
 The fixed tick as the source writes it. Its query asks for entities that
 carry a `Transform` component and a `Client` component, but the bundle a
 connection spawns has a `Rect` component (holding a transform as a plain
 field) and a `Client` component, and no `Transform` component. The query
 therefore visits no rect, and nothing ever moves. `Server.Tick` is the
 intended tick, which moves the position the bundle stores.
 */
module Findings {

  import opened Protocol
  import S = Server
  import C = Client
  import Replication
  import Wrappers

  /** The component kinds that matter to the move query. */
  datatype Component = RectComponent | ClientComponent | TransformComponent

  /** The components `RectBundle` attaches to every rect entity. */
  const RectBundleComponents: set<Component> := {RectComponent, ClientComponent}

  /** Whether an entity with these components is visited by the query `(Entity, &mut Transform, &Client)`. */
  predicate MatchesMoveQuery(components: set<Component>)
  {
    TransformComponent in components && ClientComponent in components
  }

  /**
   The tick as written: it runs the loop only over the rects the query
   visits, so it changes nothing and sends nothing, whatever the players'
   directions.
   */
  function TickAsWritten(s: S.Server, order: seq<EntityId>, step: int): (r: S.Step)
    requires S.IsQueryOrder(s.rects, order)
    ensures r == S.Step(s, [])
  {
    var visited := if MatchesMoveQuery(RectBundleComponents) then order else [];
    assert visited == [];
    var moved := S.MoveRects(s.players, s.rects, visited, step);
    S.Step(s.(rects := moved.0), moved.1)
  }

  /**
   As written, a tick delivers nothing to any client, so a run of the client's
   message system over its messages only applies the deferred spawns: no
   mirror fails on a tick, however far it lags behind the server.
   */
  lemma WrittenTickNeverFailsAMirror(s: S.Server, order: seq<EntityId>, step: int, m: C.Mirror, c: ClientId)
    requires S.IsQueryOrder(s.rects, order)
    ensures Replication.InboxOf(TickAsWritten(s, order, step).outbox, c) == []
    ensures C.Drain(m, Replication.InboxOf(TickAsWritten(s, order, step).outbox, c)) == Wrappers.Ok(C.Flush(m))
  {
  }

  /** One client, registered as 7 and steering `Right`, with its rect 0 at the origin. */
  const SteeredRight: S.Server := S.Server(map[7 := S.Player(Right)], map[0 := S.Rect(7, Zero)], 1)

  /** `SteeredRight` is the state after client 7 connects to a fresh server and sends `Right`. */
  lemma SteeredRightIsReached()
    ensures S.HandleClientMessage(S.Connect(S.Init(), 7).server, 7, DirectionMessage(Right)) == Wrappers.Ok(SteeredRight)
  {
    var joined := S.Connect(S.Init(), 7).server;
    assert joined.players.Keys == {7} && joined.rects.Keys == {0};
    assert joined.rects == map[0 := S.Rect(7, Zero)];
    assert joined.nextEntity == 1;
    var steered := S.HandleClientMessage(joined, 7, DirectionMessage(Right)).value;
    assert steered.players == map[7 := S.Player(Right)];
  }

  /** A lone rect 0 at the origin whose client 7 steers `Right` is moved by the step along x and announced to 7. */
  lemma IntendedTickMovesRight(s: S.Server, step: int)
    requires s.rects.Keys == {0} && s.rects[0] == S.Rect(7, Zero)
    requires s.players.Keys == {7} && s.players[7].direction == Right
    ensures S.IsQueryOrder(s.rects, [0])
    ensures S.Tick(s, [0], step).server.rects[0].pos == Vec3(step, 0, 0)
    ensures S.Tick(s, [0], step).outbox == [S.Outgoing({7}, RectMove(0, Vec3(step, 0, 0)))]
  {
    assert s.rects[0].pos.Add(S.Displacement(Right, step)) == Vec3(step, 0, 0);
    S.TickSingleRect(s, 0, step);
  }

  /**
   A client connects and sends `Right`; with any step the written tick
   leaves its rect at the origin and sends nothing, while the intended tick
   moves it by the step along x and announces that position.
   */
  lemma RightMoveIsLost(step: int)
    ensures S.IsQueryOrder(SteeredRight.rects, [0])
    ensures TickAsWritten(SteeredRight, [0], step) == S.Step(SteeredRight, [])
    ensures S.Tick(SteeredRight, [0], step).server.rects[0].pos == Vec3(step, 0, 0)
    ensures S.Tick(SteeredRight, [0], step).outbox == [S.Outgoing({7}, RectMove(0, Vec3(step, 0, 0)))]
  {
    IntendedTickMovesRight(SteeredRight, step);
  }
}
