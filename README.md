# Connect-opcode session model of a minimal WebSocket gateway

The gateway accepts WebSocket connections, greets each client, and runs a one-opcode
protocol against an in-memory user registry shared by all connections. Every frame a
client sends is read as text and parsed into an envelope `{"t": <opcode>, "d": <payload>}`; the only opcode
is `Connect`. The Connect handler has three outcomes:

- `d` is null: the Binary error `{"error":"missing login data"}` is written and a close
  with the normal-closure code and an empty reason is requested;
- `d["login_pkg"]` is null (a non-object `d`, a missing key, or an explicit `null`): two
  fresh identifiers are generated (the first is the token, the second the id), the user
  `{id, name: "Unnamed user", token}` is inserted under the id, and the Binary reply
  `{"connection": {"token":"<token>", "id":"<id>"}}` is written;
- otherwise nothing is written and nothing changes.

The model has six modules:

- `Options`: the optional value used for close frames and for frames that yield no envelope.
- `Json`: the payload value and the indexing rule `d[key]`.
- `Protocol`: the envelope, the user record, the messages, the literal payloads, the
  classification of a payload, the pure dispatch of one envelope (`Dispatch`) and the
  inverse of the registration reply (`ParseSuccessPayload`).
- `ProtocolFacts`: lemmas about these, including the round trip of the registration reply.
- `Gateway`: the imperative session handler. `Registry` is the shared map, changed in
  place by `Insert`. `UuidGenerator` stands in for the random UUID source: its k-th result
  is `stream(k)`. `Session` holds handles to both, plus everything written so far and its
  status. `Apply`, `Step` and `Run` are the reference semantics of the Connect handler and of
  the receive loop (src/main.rs:31-70). `Session.HandleEnvelope` is proved against `Apply`,
  `Session.Serve` against `Run`, `Session.Accept` against `Greeted` and `HandleConnection`
  against `RunSession`. `Registry.Insert` and `UuidGenerator.Generate` state their new
  state directly in terms of the old one.
- `GatewayFacts`: lemmas about whole sessions. They cover the greeting, aborts on a failed
  read or parse, closing, which frames have no effect, and how the registry grows.

A session is the greeting followed by a list of frames. Each frame is `Some(envelope)`, or
`None` when the read failed or the text did not parse.

## Model

| member | source | states |
|---|---|---|
| `Json.Get` | src/main.rs:46 | `d[key]` gives Null exactly when `d` is not an object, the key is absent, or the key holds an explicit null; otherwise it gives the stored member |
| `Protocol.NewUser` | src/main.rs:102-110 | `User::new(name, token, id)` stores each argument unchanged in its own field, even though the record's field order is id, name, token |
| `Protocol.SuccessPayload` | src/main.rs:58-62 | the reply has length prefix + token + infix + id + suffix. It starts with `{"connection": {"token":"`, ends with `"}}`, and has the token, the infix `", "id":"` and the id at their fixed offsets in between |
| `Protocol.ParseSuccessPayload` | src/main.rs:57-64 | reading a reply back is sound: whatever it accepts is exactly the registration reply for the quote-free token and id it returns |
| `ProtocolFacts.SuccessPayloadRoundTrip` | src/main.rs:58-62 | reading back the reply built from a quote-free token and id gives exactly that pair. With the soundness above, reply strings and pairs correspond one to one |
| `ProtocolFacts.SuccessPayloadInjective` | src/main.rs:58-62 | for quote-free tokens and ids, two registration replies are equal only when their token/id pairs are. The reply does no escaping, so without that hypothesis two different pairs can give the same reply |
| `ProtocolFacts.SuccessPayloadCollidesWithQuotes` | src/main.rs:58-62 | the reply is built without escaping: the token `a", "id":"b` with id `c` and the token `a` with id `b", "id":"c` give the same reply, so injectivity needs quote-free identifiers |
| `Protocol.Classify` | src/main.rs:39-46 | error outcome iff `d` is null; registration iff `d` is non-null and is not an object, lacks `login_pkg` or holds null there; no-op iff `d` is an object with a non-null `login_pkg`. The three cases are exhaustive and disjoint |
| `ProtocolFacts.ClassifyExamples` | src/main.rs:46 | `5`, `"x"`, `{}` and `{"login_pkg": null}` all register; `{"login_pkg":"anything"}` is a no-op; `null` is the error case |
| `Protocol.Dispatch` | src/main.rs:37-70 | a close is requested iff `d` is null, and then it is a normal close with an empty reason; at most one message is written and it is Binary; the registry is either unchanged or updated at `id` with the unnamed user holding `token` |
| `ProtocolFacts.DispatchMissingLoginData` | src/main.rs:33-44 | null `d`: exactly one Binary `{"error":"missing login data"}`, close with code Normal and empty reason, registry unchanged |
| `ProtocolFacts.DispatchFreshRegistration` | src/main.rs:46-65 | registration: the id maps to `User(id, "Unnamed user", token)`; every other entry is unchanged; the keys are the old keys plus the id; the one Binary message is the literal reply around that same token and id; no close |
| `ProtocolFacts.DispatchLoginPkgSupplied` | src/main.rs:45-69 | a non-null `login_pkg`: nothing is written, no close is requested, the registry is unchanged |
| `ProtocolFacts.RegistrationOverwritesOnCollision` | src/main.rs:49-56 | an id already present is overwritten, so the size stays the same; a new id adds exactly one entry |
| `ProtocolFacts.DispatchesCommute` | src/main.rs:49-56 | envelopes handled on two connections with different ids give the same registry in either order |
| `ProtocolFacts.TwoClientsGetDistinctReplies` | src/main.rs:46-65 | in the two-client scenario with quote-free identifiers, the two replies differ; each, read back, names its own client's token and id, and both ids are keys holding those tokens |
| `ProtocolFacts.TwoClientsRegister` | src/main.rs:46-56 | two clients sending `{"t":"Connect","d":{}}` against an empty registry with distinct ids leave exactly their two users, whichever is handled first |
| `GatewayFacts.StepDrawsExactlyOnReply` | src/main.rs:46-65 | on a listening session, one turn advances the generator by two (the two `gen_uuid` calls) exactly when it writes one reply and keeps listening; in every other case the generator does not move |
| `Gateway.RunEndedIsFinal` | src/main.rs:31-44 | once a session has been aborted or is closing, no later frame changes it |
| `Gateway.Registry.constructor` | src/main.rs:19-20 | the registry starts empty |
| `Gateway.Registry.Insert` | src/main.rs:49-56 | the new map is the old one updated at `id`; every other key is kept |
| `Gateway.UuidGenerator.Generate` | src/main.rs:76-79 | returns the next identifier of the supplied stream and advances the call count by one |
| `Gateway.Session.Accept` | src/main.rs:26-28 | a new session has written exactly the Text greeting, is listening, and shares the given registry and generator |
| `Gateway.Session.HandleEnvelope` | src/main.rs:33-70 | the new session state is `Apply` of the old one: the registry, the messages written, the status and the generator count all follow `Dispatch`, using the generator's next two results as token and id |
| `Gateway.Session.Serve` | src/main.rs:29-71 | the receive loop ends in the state `Run` gives for the frames, stopping at the first failed frame or requested close |
| `Gateway.HandleConnection` | src/main.rs:25-72 | a connection's task ends in the state `RunSession` gives: the greeting, then the loop over the frames, on the shared registry |
| `GatewayFacts.RunAppend` | src/main.rs:29-71 | running two batches of frames one after the other is the same as running their concatenation |
| `GatewayFacts.ParseFailureAborts` | src/main.rs:31-32 | a failed read or parse at frame k writes nothing and leaves the registry as it was after frame k-1; the session is aborted and later frames are ignored |
| `GatewayFacts.MissingLoginDataEndsSession` | src/main.rs:39-44 | a null payload appends the one Binary error and requests the normal close; the registry is unchanged and nothing after it is handled |
| `GatewayFacts.LoginPkgFrameIsSilent` | src/main.rs:45-69 | an envelope with a non-null `login_pkg` leaves the session unchanged and the loop goes on with the next frame |
| `GatewayFacts.RunAppendsBinary` | src/main.rs:40-65 | the loop only ever appends to the messages written, and everything it appends is Binary |
| `GatewayFacts.SessionGreetsFirst` | src/main.rs:27-28 | the first message of every session is the Text `{"message":"You connected"}`, and every later message is Binary |
| `GatewayFacts.RunKeepsRegistryWellFormed` | src/main.rs:49-56 | if identifiers are never empty, every registry entry stays keyed by its own id with a non-empty id and token |
| `GatewayFacts.StepDrawsPairs` | src/main.rs:46-56 | one turn draws no identifiers and leaves the registry unchanged, or draws one pair and inserts the user minted from it |
| `GatewayFacts.RunRegistryIsMinted` | src/main.rs:46-56 | for any identifiers, the registry after the loop is the one before with the users minted from the drawn pairs inserted in order (first of a pair = token, second = id; later inserts overwrite) |
| `GatewayFacts.MintOneFresh` | src/main.rs:47-56 | with distinct identifiers, none of which from call `c` on is already a key, inserting the pair minted from calls `c` and `c + 1` adds its id as a new key and keeps later identifiers unregistered |
| `GatewayFacts.MintIntoKeeps` | src/main.rs:47-56 | with distinct, not-yet-registered identifiers, minting keeps every earlier entry and keeps later identifiers unregistered |
| `GatewayFacts.MintIntoCount` | src/main.rs:47-56 | with distinct, not-yet-registered identifiers, minting n pairs adds exactly n entries |
| `GatewayFacts.MintedStateFresh` | src/main.rs:47-56 | for any state whose registry comes from minting pairs into a registry that holds none of the identifiers still to come, with distinct identifiers: one entry per pair is added, earlier entries are kept, and later identifiers stay unregistered |
| `GatewayFacts.RunRegistersFreshUsers` | src/main.rs:46-56 | with distinct, not-yet-registered identifiers, each registration of a session adds exactly one entry. No earlier entry changes, and identifiers still to come stay unregistered |
| `GatewayFacts.RunNeverRemovesUsers` | src/main.rs:29-71 | no key ever leaves the registry (there is no disconnect clean-up) |
| `GatewayFacts.RegistrationReplyNamesNewKey` | src/main.rs:46-65 | if the id about to be drawn is not yet a key and the two identifiers drawn are quote-free, a fresh registration writes one Binary reply. Read back, it names a token and an id; the id is now a key holding that token. The registry grows by that one key and the session keeps listening |

## Source comments and code

Where the source's own comments and its code differ, the model follows the code:

- The comment at src/main.rs:46 speaks of "no data in the login_pkg field". The code tests
  `d["login_pkg"] == Null`. That test also sends a non-object `d` and an explicit
  `"login_pkg": null` down the registration path (`Protocol.Classify`).
- The comment at src/main.rs:44 says the close will "terminate the thread". The code does
  not leave the loop after requesting the close. As a modelling choice, the session ends at
  the close request (`Status.Closing`) and later frames are ignored; see "## Left out" for
  what this drops.
- The comment at src/main.rs:20 describes the registry as holding connections "as they
  connect and disconnect". The code never removes an entry (`GatewayFacts.RunNeverRemovesUsers`).
- The registry is keyed by freshly generated ids, but the code inserts without checking,
  so an existing id is overwritten. Uniqueness appears only as the assumption `Distinct`
  in the lemmas that need it.

## Left out

- TCP bind and accept, the WebSocket handshake and framing: network I/O in a foreign library. A frame that cannot be read or is not valid UTF-8 text is a `None` frame.
- Spawning, the `Arc`/`RwLock` sharing and the interleaving of sessions: concurrency. Each registry insert is one atomic `Registry.Insert`. `DispatchesCommute` covers two envelopes from different connections; arbitrary schedules are not modelled.
- JSON text parsing of the envelope: done by a foreign library. An unknown opcode or malformed text turns up as a `None` frame.
- UUID v4 randomness: replaced by a supplied stream `nat -> string`. Global uniqueness cannot be proved, so it is the `Distinct` hypothesis where it is needed. Without it, collisions overwrite (`RunRegistryIsMinted`).
- The `println!` dump of the registry after a registration: logging I/O.
- The unused `Channel` type and its map: dead code.
- Frames delivered after a close request and before the library stops reading: the model ignores them. The WebSocket library can still return data frames the client sent before it saw the close. The loop then handles such a frame. A pipelined registration would draw two identifiers and insert a user before the reply write fails and the task ends. So the model does not capture a registry insert after an error outcome whose reply never arrives (`Gateway.Step`, `Gateway.RunEndedIsFinal`, `GatewayFacts.MissingLoginDataEndsSession`).
- Json.Get: numbers are unbounded integers; floating-point JSON numbers are not modelled. The dispatch only compares values with null, so nothing else depends on this.
- Protocol.Dispatch: a Binary message carries the UTF-8 bytes of its payload. The model keeps the payload as a string and does not model the encoding.
- Every write to the connection goes through an `unwrap`. A failed write would end the task; the model treats every write as successful.
