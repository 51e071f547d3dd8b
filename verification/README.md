# box_move replication core in Dafny

This project models the core of `box_move`, a small Bevy/QUIC demo. One
authoritative server spawns one square ("rect") for each connection. A rect
outlives its connection: a lost connection only unregisters the player, and a
reconnect spawns a second rect. The server is meant to move each rect on every
fixed tick in the direction its client last sent; as written, the tick's query
matches no rect, so nothing moves (see "## Findings"). Clients mirror the
rects from the messages the server broadcasts.

The model has three parts, one module per source file, plus two modules of
cross-cutting results:

- `Protocol` (`protocol.dfy`): `Direction`, `ClientMessage` and `ServerMessage`,
  with positions as integer vectors.
- `Server` (`server.dfy`): the registry of players and rects, and four transitions.
  They are connect (`handle_connection`), connection lost (`handle_connection_lost`),
  a direction message (`handle_client_message`) and the fixed tick (`cube_move`).
  Each transition is a pure function that returns the new state and an outbox.
  The outbox is a sequence of group messages. Each one is addressed to the
  players registered at the moment it is sent.
- `Client` (`client.dfy`): the mirror. It holds the client id, a map
  from server entity to local entity, and the position of each local entity. It
  models `handle_server_message` as `Apply`, folded over the receive queue
  (`Receive`), followed by `Flush`, which applies the deferred spawns (`Drain`).
  `commands.spawn` only queues the new local entity's components. They are
  inserted after the system returns, so within one drain the new entity has
  no transform yet, and a `RectMove` for it fails the `query_rect.get_mut`
  unwrap.
- `Replication` (`replication.dfy`): what a mirror does with the part of an outbox
  addressed to it. These results are about the corrected tick `Server.Tick`.
  Under it, a mirror that tracks the server stays in agreement through
  connects and ticks, as long as each drain ends between the connect and the
  next tick. A client that joins while another registered client's rect exists
  fails on the next tick. A rect whose client is gone is never announced, so it
  does not make a joiner fail. A client that receives its own spawn and the next tick's moves
  in one drain fails too. The tick as written sends nothing, so under it no
  mirror ever receives a move and none of these failures occurs
  (`Findings.WrittenTickNeverFailsAMirror`).
- `Findings` (`findings.dfy`): the fixed tick exactly as written. Its query never
  matches a rect (see "## Findings").
- `Wrappers` (`wrappers.dfy`): `Option` and `Result`. An `Err` stands for the
  source's `unwrap` panics.

Fresh ids are counters. `commands.spawn` yields a new entity id on the server
and a new local entity on the client. The product `SPEED * delta_seconds` is an
integer parameter `step`. The engine's query iteration order is an explicit
parameter that lists every live rect once.

The code does not implement several parts of a full replication protocol, and
the model follows the code:

- `InitClient` is sent to every registered player, not only to the new one. So
  every earlier client overwrites its own recorded id with the newcomer's
  (`Replication.ConnectKeepsMirrorInSync`).
- A new joiner gets no catch-up spawns for rects that already exist.
- A lost connection does not despawn its rect, and it broadcasts nothing.
- The corrected tick `Server.Tick` broadcasts a `RectMove` for every rect whose
  client is registered, even when the rect did not move. The tick as written
  moves and broadcasts nothing (see "## Findings").
- A direction message from an unregistered client is an error, because the
  source unwraps. It is not silently discarded.
- A second `SpawnRect` for a mapped entity replaces the mapping. The old local
  entity stays where it is.
- The client's `match` has no arm for `DespawnRect`. Rust rejects a
  non-exhaustive match, so the code as shown does not build. The model treats
  such a message as an error (`NoHandler`), not as a despawn.

## Model

| member | source | states |
|---|---|---|
| Protocol.DefaultDirection | src/protocol.rs:5-8 | The default direction is `None`. |
| Protocol.DirectionHasFiveValues | src/protocol.rs:6-13 | Every direction is one of exactly five distinct values. |
| Protocol.EntityOf | src/protocol.rs:21-26 | `InitClient` is the only server message that carries no entity; the other three each name one entity. |
| Server.Init | src/server.rs:39-42 | The registry starts with no players and no rects, and its entity counter is fresh. |
| Server.Register | src/server.rs:79-84 | The client is registered with direction `None`, any earlier entry for it is replaced, and every other player is unchanged. |
| Server.SpawnFor | src/server.rs:85-94 | Spawning adds exactly one rect under a fresh id. The rect is owned by the client and sits at the origin. Existing rects are unchanged. |
| Server.Connect | src/server.rs:78-111 | A connect registers the client with `None` and leaves the other players alone. It adds exactly one fresh rect, owned by the client and at the origin. It sends `InitClient(id)` and then `SpawnRect` to every registered player, the new one included. The spawn names the new rect and announces its stored position. |
| Server.ConnectAll | src/server.rs:72-113 | Handling a batch of connects registers every id with `None` and keeps all other players. It adds one rect per event, keeps the old rects, and every new rect belongs to one of the connecting clients and sits at the origin. It sends two messages per event. |
| Server.ConnectAllMessages | src/server.rs:72-113 | The messages of the i-th connect event are at positions 2i and 2i+1. They are `InitClient` of that client and then a spawn at the origin of a fresh rect that the final state holds as that client's rect at the origin. Both go to the players registered at that moment: the earlier players plus the first i+1 connecting clients. |
| Server.ConnectionLost | src/server.rs:119-121 | A lost connection removes only that player. The rects stay and nothing is sent. |
| Server.ConnectionLostAll | src/server.rs:115-122 | A batch of losses removes exactly those players. Rects are unchanged and the outbox is empty. |
| Server.Update | src/server.rs:23-29 | Connects run before losses in one update. So a client is registered afterwards iff it was registered or connected, and was not lost. The rects grow by one per connect. |
| Server.HandleClientMessage | src/server.rs:127-131 | A direction message succeeds iff the sender is registered. It overwrites only the sender's direction. An unknown sender is the `UnknownClient` error. |
| Server.HandleInbox | src/server.rs:124-135 | Draining received direction messages changes no registration, no rect and no entity counter. A failure names a sender of the inbox that is not registered. |
| Server.LastWriteWins | src/server.rs:124-135 | Draining received direction messages succeeds iff every sender is registered. Each player then holds the direction of its last message, or keeps its old one if it sent none. Nothing else changes. |
| Server.Displacement | src/server.rs:148-156 | `None` gives zero. Up and down change only y, left and right only x, by exactly the step. z never changes. At most one axis moves. |
| Server.DisplacementSigns | src/server.rs:150-156 | Up and down cancel, right and left cancel, and up and right point along the positive axes. |
| Server.Registered | src/server.rs:143-146 | The rects the tick processes are exactly those whose client has a player entry, with no repeats. |
| Server.RegisteredKeepsOrder | src/server.rs:143-146 | The processed rects keep the relative order of the engine's iteration. |
| Server.MoveRects | src/server.rs:143-167 | The loop of the corrected tick moves each rect whose client is registered and leaves the others untouched, and sends one message per processed rect. |
| Server.MoveRectsAnnounces | src/server.rs:157-166 | The k-th message of the tick loop is a `RectMove` of the k-th processed rect, sent to all players, carrying that rect's final position. |
| Server.Tick | src/server.rs:137-168 | This is the corrected tick, whose loop visits every live rect. After a tick, players and the set of rects are unchanged. A rect with an unregistered client is neither moved nor announced. Every other rect is displaced by its player's direction and announced to all players. |
| Server.TickStateIndependentOfOrder | src/server.rs:143 | The state after a tick does not depend on the engine's iteration order. |
| Server.StillRectIsStillAnnounced | src/server.rs:150-166 | A rect whose player holds `None` does not move, yet the tick still broadcasts a `RectMove` with its unchanged position. |
| Server.TickSingleRect | src/server.rs:143-167 | With one registered rect, the tick moves it by its displacement and sends exactly one `RectMove` to all players. |
| Client.Init | src/client.rs:22-26 | The mirror starts with no client id, an empty entity map and no deferred spawn. |
| Client.Apply | src/client.rs:65-86 | `InitClient` sets the client id and nothing else. `SpawnRect` maps the entity to a fresh local entity and adds exactly that one entity, at the position, to the deferred spawns. It keeps other mappings, placed positions and earlier deferred spawns. `RectMove` fails iff the entity is unmapped or its local entity has no transform yet; otherwise it sets exactly that position. A message with no match arm is an error. Validity is preserved. |
| Client.Flush | src/client.rs:68-78 | Applying the deferred spawns places every pending local entity at its spawn position and leaves placed ones alone. Nothing stays pending. A mirror with nothing pending is unchanged. |
| Client.MoveFailsOnlyWhenUnmappedOrPending | src/client.rs:81-83 | On a valid mirror, a move fails exactly when its entity was never spawned or was spawned earlier in the same drain. |
| Client.RectMoveIdempotent | src/client.rs:81-85 | Applying the same `RectMove` twice gives the same result as applying it once. |
| Client.DuplicateSpawnReplaces | src/client.rs:67-79 | A second spawn of an entity maps it to a new deferred local entity at the new position. The old local entity remains. |
| Client.Receive | src/client.rs:61-87 | Applying the queue in arrival order preserves mirror validity. |
| Client.ReceiveAppend | src/client.rs:61-64 | Receiving a concatenation is receiving the first queue and then the second. The first failure stops. |
| Client.Drain | src/client.rs:52-88 | One run of the message system fails iff the receive fails. A successful run leaves nothing pending and keeps validity. |
| Client.DrainSplit | src/client.rs:52-88 | One run over two queues is receiving the first and then running over the second. Two runs differ from it only by applying the first queue's deferred spawns in between. |
| Client.SpawnThenMoveInOneDrainFails | src/client.rs:67-84 | A spawn and a move of the same entity in one run fail on the missing transform. In two runs the same messages succeed and the entity ends at the moved position. |
| Client.HandleServerMessages | src/client.rs:52-88 | The system computes exactly one run: the left fold of `Apply` over the queue, stopping at the first failure, then the deferred spawns. |
| Replication.InboxOf | src/server.rs:96-98 | The inbox of a client is no longer than the outbox. If every message is addressed to the client, it is the whole outbox in order. If none is, it is empty. |
| Replication.InboxOfMembers | src/server.rs:96-98 | A message is in a client's inbox iff the outbox sent it to a recipient set holding that client. |
| Replication.InboxOfAppend | src/server.rs:96-98 | The inbox of two outboxes sent one after the other is the two inboxes in that order. |
| Replication.ReceiveMoves | src/client.rs:81-85 | Moves of placed entities all succeed. Afterwards each such entity sits at its last announced position, and the map and the deferred spawns are unchanged. |
| Replication.ReceiveMovesFails | src/client.rs:82-83 | A move of an entity that the mirror never spawned, or spawned only in the current run, makes the receive fail. |
| Replication.LastPosOfAnnounced | src/server.rs:157-166 | In a tick's broadcast, the last position announced for a rect is its new position. |
| Replication.TickInbox | src/server.rs:159-166 | A registered client receives one `RectMove` per processed rect, carrying that rect's new position. |
| Replication.TickReceive | src/server.rs:143-166 | Receiving a tick's moves on a mirror that tracks every moved rect succeeds and keeps the mirror in agreement with the new positions. |
| Replication.TickKeepsMirrorInSync | src/server.rs:143-166 | Suppose a mirror with nothing pending tracks every rect the tick will move. Then after a run over the tick's messages it still agrees with the server on every tracked position, and its map is unchanged. |
| Replication.TickFailsOnUnplacedEntity | src/client.rs:82-83 | With the corrected tick `Server.Tick`, a registered client whose mirror lacks a rect the tick processes, or holds it only as a deferred spawn, fails on that tick's messages. |
| Replication.ConnectInbox | src/server.rs:96-111 | Receiving a connect's messages records the newcomer's id and maps its rect to a deferred spawn at the origin, keeping every tracked rect. |
| Replication.ConnectKeepsMirrorInSync | src/server.rs:96-111 | After a run over a connect's messages, every registered client records the newcomer's id as its own. It also mirrors the new rect at the origin and keeps every rect it tracked. |
| Replication.LostKeepsMirrorInSync | src/server.rs:119-121 | A lost connection sends nothing, and every mirror still agrees with the server. |
| Replication.LateJoinerFailsOnNextTick | src/server.rs:96-111 | A client that joins while another registered client's rect exists is not told about that rect. With the corrected tick `Server.Tick`, its mirror fails on the next tick. |
| Replication.JoinedMirrorFailsOnTick | src/client.rs:67-84 | After receiving its connect's messages, a new client's mirror fails on the next moves of the corrected tick `Server.Tick`, because its own rect is still a deferred spawn. |
| Replication.JoinAndTickInOneDrainFails | src/client.rs:61-84 | A new client that receives its connect's messages and the next moves of the corrected tick `Server.Tick` in one run fails. |
| Replication.ReceiveFailsAfter | src/client.rs:61-64 | A receive that succeeds on one queue and fails on the next makes the run over both fail. |
| Findings.TickAsWritten | src/server.rs:137-143 | As written, the tick's query visits no rect, so a tick changes nothing and sends nothing. |
| Findings.SteeredRightIsReached | src/server.rs:78-94 | Client 7 connects to a fresh server and sends `Right`. The result is one player steering right and one rect at the origin. |
| Findings.IntendedTickMovesRight | src/server.rs:143-167 | With a lone rect at the origin whose client steers `Right`, the corrected tick moves it by the step along x and sends one `RectMove` to that client. |
| Findings.WrittenTickNeverFailsAMirror | src/server.rs:137-143 | As written, a tick delivers nothing to any client, so a run over its messages only applies the mirror's deferred spawns and never fails. |
| Findings.RightMoveIsLost | src/server.rs:137-168 | In that state, the tick as written leaves the rect at the origin and sends nothing. The corrected tick moves it by the step along x and announces it. |

## Findings

| source | as written | input that shows it | evidently intended | confidence | as-written member | corrected member |
|---|---|---|---|---|---|---|
| src/server.rs:137-143 | `cube_move` queries `(Entity, &mut Transform, &Client)`. Connect spawns a `RectBundle` (src/server.rs:55-58) that has a `Rect` component holding a transform as a field, a `Client` component, and no `Transform` component. So the query visits no rect. | Client 7 connects, sends `Right`, and one tick runs: the rect stays at the origin and no `RectMove` is sent. | Each tick moves the rect the bundle positions and broadcasts its new position. | high; not executed | Findings.RightMoveIsLost | Server.Tick |

## Left out

- QUIC transport: endpoint setup, certificates, channel configuration, `start_listening` and `start_connection`. These are calls into the transport library; sends are outbox entries, and receives are explicit queues.
- Rendering: the camera, meshes and materials. A local entity is a fresh id with a position.
- Process bootstrap (`src/main.rs`) and the host and port constants (`src/consts.rs`).
- `box_move`: it is disabled in `run` and integrates floating-point keyboard input.
- Floating point and `Time`: positions are integer vectors, and `SPEED * delta_seconds` is the integer `step`.
- Serde serialisation: the codec is derived by a library and is not part of this model.
- Scheduling: `handle_client_message` is not registered in `run`. It is modelled as an operation a caller may invoke, not as part of any schedule.
- Scheduling: how the `Update` and `FixedUpdate` schedules interleave over time is not modelled. Each transition is applied explicitly.
- Server.Tick: the engine's iteration order is an input that lists every live rect once. The model does not fix a particular order.
