# Ludo relay: connection registry and broadcast, in Dafny

This project models the real-time part of a Ludo game backend. Players in a
room open WebSockets on two channels: a game channel carrying JSON messages
and a voice channel carrying raw audio frames. An in-memory
`ConnectionManager` keeps two tables, `active_connections` (game) and
`voice_connections` (voice). Each table maps a room code to the set of
sockets in that room. Each endpoint's receive loop relays what it receives
to every socket of the same room and channel, the sender included. A failed
send is swallowed. The project also models the record schemas of the
backend's document store (`User`, `Product`, `Room`, `Move`): their
defaults and range constraints.

Modules:

- `Payloads` (payloads.dfy): connection handles (`Conn`, compared by
  identity), JSON values, voice bytes, and one `Send` record of the outbox.
- `Registry` (registry.dfy): a table as a `map<string, set<Conn>>`. It holds
  the pure insert and remove operations and their laws. It also models a
  sequence of connect/disconnect operations with `Run` and gives an exact
  characterisation of membership after any such sequence.
- `Relay` (relay.dfy): the `ConnectionManager` class. Its two table fields
  are reassigned by `Connect` and `Disconnect`. `Broadcast` and
  `BroadcastVoice` take a snapshot of a room's set (`Snapshot`, the
  `list(...)` copy) and walk it with a loop (`Deliver`). `FanOut` states what
  one broadcast must be: each reachable member gets the payload exactly once,
  and nobody else gets anything. `JoinRoom` is the join announcement.
- `Sessions` (sessions.dfy): the game and voice receive loops. They run over
  a finite sequence of inbound events and return one outbox batch per
  broadcast call. The full outbox is the concatenation of the batches.
- `Schemas` (schemas.dfy): the records as datatypes whose constructor
  defaults match the declared ones. Validity predicates hold the range
  constraints. Builders return the record, or a `ValidationError` naming the
  offending fields.
- `Scenarios` (scenarios.dfy): small concrete runs (echo to the whole room,
  voice kept off the game channel, a failing peer skipped, reconnect counted
  once, a join into an empty room, a peer that fails in the middle of a
  session, and a malformed frame or a voice close that leaves its socket
  registered). Each is derived from the contracts alone.

How I/O is modelled:

- A send is an entry `Send(to, payload)` in the outbox a broadcast returns.
- Per-send failure is a caller-supplied set `failing` of handles. A send to
  one of them raises inside the loop, is swallowed, and is not logged. A
  session takes one such set per receive (`failing[i]` for the broadcast
  triggered by event `i`), so a peer can fail on some sends and not others.
- Each `receive_json()` or `receive()` consumes one `Event`. Kinds of event:
  - `JsonText(msg)`: a JSON text frame.
  - `Binary(data)`: a frame whose `"bytes"` entry is present and not `None`.
  - `NonBinary`: any other frame.
  - `Disconnect`: the receive raises `WebSocketDisconnect`.
  - `OtherError`: the receive raises any other exception.
- `receive_json` reads only a frame's text. So on the game channel, a
  `Binary` or `NonBinary` frame makes it raise an error that is not
  `WebSocketDisconnect`.
- The framework decides which transport events become `WebSocketDisconnect`.
  The model takes the event sequence as given.

Two behaviours of the endpoints, stated as the code has them:

- The endpoints deregister a socket only when they catch
  `WebSocketDisconnect`. Any other exception, such as a JSON decode failure,
  escapes the endpoint and leaves the socket registered. `GameSession` and
  `VoiceSession` state this as exit `Escaped`;
  `Scenarios.MalformedFrameLeaks` and `Scenarios.VoiceCloseLeaks` show it.
- The relay sends to the whole room, the sender included.

Broadcasting never changes the registry: `Broadcast`, `BroadcastVoice` and
`JoinRoom` have no `modifies` clause, so Dafny's frame rule guarantees that
neither table changes.

## Model

| member | source | states |
|---|---|---|
| `Registry.Insert` | main.py:35 | the room key is added if absent; the room's set gains exactly `c`; every other room keeps its set |
| `Registry.Remove` | main.py:38-41 | the room keys are unchanged, even when a set becomes empty; the room's set loses exactly `c`; every other room keeps its set |
| `Registry.InsertIdempotent` | main.py:35 | connecting the same handle twice gives the same table as connecting it once |
| `Registry.InsertPresent` | main.py:35 | connecting a handle already in an existing room leaves the table unchanged |
| `Registry.RemoveAbsent` | main.py:38-41 | removing an absent handle, or removing from an unknown room, is a no-op |
| `Registry.RemoveIdempotent` | main.py:37-41 | disconnecting twice with the same arguments gives the same table as disconnecting once |
| `Registry.RemoveKeepsOthers` | main.py:37-41 | removing `c` from `room` changes the membership of no other handle in any room, and of no handle in any other room |
| `Registry.ReconnectCountsOnce` | main.py:33-41 | connect, disconnect, connect leaves the handle in the room once: the set grows by exactly one |
| `Registry.StepMembership` | main.py:33-41 | one join or disconnect decides membership for its own handle, room and channel, and leaves every other membership question as it was |
| `Registry.RunMembership` | main.py:30-41 | after any sequence of joins and disconnects, a handle is in `(room, channel)` exactly when the latest operation about it there was a join, or, if there was none, when it started there |
| `Registry.FreshRunMembership` | main.py:29-41 | from a fresh manager, a room's members on a channel are exactly the handles joined there and not disconnected since |
| `Registry.LeaveClearsBoth` | main.py:37-41 | a disconnect removes the handle from both the game and the voice set of the room, whichever one it joined |
| `Registry.JoinKeepsOtherChannel` | main.py:33-35 | a game-channel join leaves the voice table unchanged, and a voice-channel join leaves the game table unchanged |
| `Relay.Snapshot` | main.py:44 | the snapshot lists every member of the set once and nothing else |
| `Relay.Deliver` | main.py:44-48 | the send loop produces exactly the specified deliveries: the snapshot in order, with the failing handles skipped |
| `Relay.DeliveriesPayload` | main.py:44-46 | every send of a pass carries the broadcast payload unchanged |
| `Relay.DeliveriesRecipients` | main.py:44-48 | a pass reaches exactly the snapshot's handles whose send does not fail |
| `Relay.DeliveriesOnce` | main.py:44-48 | over a duplicate-free snapshot, no handle is sent to twice |
| `Relay.DeliveriesCount` | main.py:44-48 | over a duplicate-free snapshot, the number of sends equals the number of handles reached |
| `Relay.DeliveriesFanOut` | main.py:44-48 | a pass over a duplicate-free snapshot sends the payload exactly once to each non-failing member and to nobody else; a failure to one member never stops delivery to the rest |
| `Relay.ConnectionManager.constructor` | main.py:29-31 | a fresh manager has both tables empty |
| `Relay.ConnectionManager.Connect` | main.py:33-35 | the game table becomes `Insert(old, room, c)`; the voice table is unchanged |
| `Relay.ConnectionManager.Disconnect` | main.py:37-41 | both tables become `Remove(old, room, c)` |
| `Relay.ConnectionManager.Broadcast` | main.py:43-48 | one send of the message to each game-channel member of the room that does not fail, none to anybody else; an unknown room gives zero sends; no error reaches the caller |
| `Relay.ConnectionManager.BroadcastVoice` | main.py:50-55 | the same over the voice-channel members only, so a socket that is only on the game channel never receives a voice frame |
| `Relay.JoinRoom` | main.py:94-98 | exactly `{"type": "player_joined", "player_id": p}` is fanned out to the room's game-channel members, and the reply is `{"ok": true}` |
| `Sessions.GameStop` | main.py:105-110 | the game loop consumes JSON messages up to the first event that is not one, and stops there |
| `Sessions.VoiceStop` | main.py:118-123 | the voice loop consumes events up to the first one that raises, and stops there |
| `Sessions.BinaryPositions` | main.py:120-121 | the events the voice loop relays are exactly the frames carrying bytes, each once, in the order received |
| `Sessions.GameSession` | main.py:101-110 | the sender joins the game channel; each received message, unchanged, is fanned out to the whole room including the sender, minus the handles whose send fails at that receive; only `WebSocketDisconnect` deregisters it from both tables; any other error leaves it registered |
| `Sessions.VoiceSession` | main.py:113-123 | the sender is inserted into the voice table directly; each frame carrying bytes, in order, is fanned out to the room's voice members, minus the handles whose send fails at that receive; other frames are dropped; only `WebSocketDisconnect` deregisters |
| `Schemas.NewUser` | schemas.py:28 | a user is built exactly when a present age lies in 0..120; otherwise the error names `age` |
| `Schemas.UserDefaults` | schemas.py:25-29 | a user given only name, email and address has no age, is active, and is valid |
| `Schemas.ProductDefaults` | schemas.py:36-40 | a product's description defaults to absent and `in_stock` to true |
| `Schemas.NewRoom` | schemas.py:53 | a room is built exactly when `max_players` lies in 2..4; otherwise the error names `max_players` |
| `Schemas.RoomDefaults` | schemas.py:49-54 | a room given only its code and creator is `waiting`, has no players, allows 4, has no creation time, and is valid |
| `Schemas.RoomStatusUnconstrained` | schemas.py:51 | whether a room is valid never depends on its status string |
| `Schemas.CreateRoomDocument` | main.py:90 | the document `create_room` builds, with the creator as the only player, passes validation with the defaults |
| `Schemas.NewMove` | schemas.py:64-66 | a move is built exactly when `-1 <= from_pos <= 57`, `0 <= to_pos <= 57` and `1 <= dice <= 6`; otherwise the error names exactly the out-of-range fields |
| `Schemas.HomeIsOnlyOffBoardStart` | schemas.py:64-65 | a valid move starting off the board starts at home (-1); home is an accepted start; a valid move never starts at -2 and never ends at home |

## Left out

- `websocket.accept()`, `send_json`, `send_bytes`, `receive_json` and `receive`: network I/O. They are replaced by the event sequence and the outbox.
- Concurrency: async interleaving of sessions is not modelled. The model is sequential, one registry call at a time. So the snapshot copy protects nothing here, and a table cannot change during one session's loop.
- Which receive outcomes reach the loops as `Disconnect`: that is decided by the web framework, which is not part of this model. With Starlette, the library under FastAPI, the raw `receive()` of the voice loop returns a client close as a message without bytes instead of raising, and the next `receive()` raises `RuntimeError`. A voice close then takes the path `[NonBinary, OtherError]` and the socket stays in `voice_connections` (`Scenarios.VoiceCloseLeaks`). The model takes the event sequence as given and does not derive it from the framework.
- The order in which `list(set)` yields members is Python's set iteration order. The model leaves it unspecified (`Snapshot` picks members in any order), so no contract speaks of the order of sends within one broadcast.
- Web framework plumbing: routing, the CORS middleware (main.py:9-17), the root endpoint, and the `uvicorn` start-up (main.py:125-128).
- The `/test` endpoint (main.py:63-85) and the storing of documents in `create_room` (main.py:87-92): they go through the database module, which is not part of this model. Only the validity of the document `create_room` builds is modelled.
- `Product.price`: a float. The model's `Product` has no price field and so no price constraint.
- Pydantic's type coercion and the exact shape of its error reports: these are library behaviour. A failed build carries only the set of offending field names.
- The collection-naming convention and the database viewer notes in schemas.py (lines 8-11, 72-76): behaviour of external tools.
- JSON serialisation: numbers are held as integers, and payloads are relayed without inspection.
- `Payloads.PlayerJoined` has no contract of its own. Its meaning, the exact notification object, is stated through `JoinRoom`.
