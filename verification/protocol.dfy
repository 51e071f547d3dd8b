/**
 The message vocabulary exchanged by the authoritative server and its client
 mirrors: the input direction a client latches, the single client-to-server
 message and the four server-to-client messages.
 */
module Protocol {

  import Wrappers

  /** Transport-assigned identifier of one connected client. */
  type ClientId = nat

  /** Server-side entity identifier, as assigned when the entity is spawned. */
  type EntityId = nat

  /** A translation vector; floating-point components are modelled as integers. */
  datatype Vec3 = Vec3(x: int, y: int, z: int)
  {
    /** Component-wise sum: translating by `d`. */
    function Add(d: Vec3): Vec3
    {
      Vec3(x + d.x, y + d.y, z + d.z)
    }
  }

  /** The origin, `Vec3::ZERO`. */
  const Zero := Vec3(0, 0, 0)

  /** The input intent a client sends; `None` is the default. */
  datatype Direction = None | Up | Down | Left | Right

  /** `Direction::default()`, which the `#[default]` attribute puts on `None`. */
  function DefaultDirection(): (d: Direction)
    ensures d.None?
  {
    None
  }

  /** Every direction, each once. */
  const AllDirections: seq<Direction> := [None, Up, Down, Left, Right]

  /** `Direction` has exactly five values. */
  lemma DirectionHasFiveValues(d: Direction)
    ensures d in AllDirections
    ensures |AllDirections| == 5
    ensures forall i, j :: 0 <= i < j < |AllDirections| ==> AllDirections[i] != AllDirections[j]
  {
  }

  /** The only message a client sends: its current direction. */
  datatype ClientMessage = DirectionMessage(direction: Direction)

  /** The four messages the server sends. */
  datatype ServerMessage =
    | InitClient(clientId: ClientId)
    | SpawnRect(entity: EntityId, pos: Vec3)
    | RectMove(entity: EntityId, pos: Vec3)
    | DespawnRect(entity: EntityId)

  /** The entity a message refers to, if any: `InitClient` carries only a client id. */
  function EntityOf(msg: ServerMessage): (r: Wrappers.Option<EntityId>)
    ensures r.None? <==> msg.InitClient?
    ensures r.Some? ==> r.value == msg.entity
  {
    match msg
    case InitClient(_) => Wrappers.None
    case SpawnRect(e, _) => Wrappers.Some(e)
    case RectMove(e, _) => Wrappers.Some(e)
    case DespawnRect(e) => Wrappers.Some(e)
  }
}
