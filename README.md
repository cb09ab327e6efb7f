# Turn-based game protocol over QUIC: a Dafny model

This project models the core of a small client/server protocol for turn-based
games over QUIC. Each request and each reply is one JSON-encoded `Message`,
framed by a 4-byte big-endian length prefix. Each request/reply exchange uses
its own stream: the client opens it and writes the request, and the server
writes its reply on the same stream.
Both sides track the session with a six-state protocol DFA:
Start → WaitingForJoin → Joining → InGame ⇄ Resyncing, plus Closed.
Every state change goes through `transitionTo`, which panics on a move the
table does not allow.

The model has seven modules:

- `Wrappers` (`wrappers.dfy`): `Option`, `Result` and `Outcome`.
- `Messages` (`message.dfy`): the `Message` record, and its JSON object form as encoding/json builds and reads it from the struct tags. This covers `omitempty`, null and a missing key meaning the zero value, a type or range mismatch being an error, and unknown keys being ignored.
- `ProtocolDfa` (`state.dfy`): the states, their ordinals and names, the transition table, and a `StateCell` class whose `TransitionTo` method overwrites the state in place. Go's panic is returned as `Fail(...)`, with the cell left untouched.
- `Framing` (`framing.dfy`): the uint32 header codec, the frame, and a `Stream` class that holds the unread inbound bytes and the written outbound bytes. It has an `io.ReadFull` method over an `array`, and `SendMessage`/`ReadMessage`. The JSON byte syntax is a parameter (`JsonText`). The round trip it must satisfy is stated as `Faithful`.
- `Server` (`server.go`'s `handleStream`, in `server.dfy`): the pure `Dispatch` function, and the `HandleStream` method that performs it on a `StateCell` and a `Stream`. Around them are facts about whole sequences of streams on one connection.
- `Client` (`client.dfy`): `sendJoinGame`, `sendStateUpdate` and `sendResyncRequest` as pure functions of the state and of what the network did (an `Exchange`), and as methods on the client's global `StateCell`.
- `Session` (`session.dfy`): end-to-end exchanges. These are the join handshake, the same handshake through the bytes, a lost setup ack, the resync round trip, and repeated moves.

Inputs from the outside world are parameters:

- whether the transport accepts each write (`WriteOutcome`);
- the bytes waiting on a stream and how the stream ends (`StreamEnd`);
- whether the client can open a stream, and what `readMessage` gave it (`Exchange`);
- the JSON text codec (`JsonText`).

Where Go panics, the model's contracts show that no panic is reachable on
these paths when a connection's streams are handled one at a time. Under that
assumption every call of `transitionTo` in the server and the client is
guarded so that it is a legal move. Without it, two join requests handled
concurrently can make handleStream panic (`Server.InterleavedJoins`, and
"## Findings" below).

A header carries `uint32(len(body))`, so a body of 2^32 bytes or more would
be framed with a wrapped length. The model keeps that truncation (`Framing.Low32`) and states
its consequence in `Framing.OversizedBodyIsMisframed`.

## Model

| member | source | states |
|---|---|---|
| ProtocolDfa.Ordinal | state.go:7-14 | the iota value of every state is below 6 |
| ProtocolDfa.StateOf | state.go:5-14 | an integer names a state exactly when it is in 0..5, and then it is that state's iota value |
| ProtocolDfa.OrdinalsAreDeclarationOrder | state.go:7-25 | ordinals round-trip through StateOf; distinct states have distinct ordinals and distinct String() names |
| ProtocolDfa.Name | state.go:16-25 | String() of a state is a name that the independent lookup by constant names maps back to that state |
| ProtocolDfa.NamesOfStates | state.go:16-25 | String() of each state is its constant's name without the State prefix |
| ProtocolDfa.NextStates | state.go:29-35 | the `valid` table has an entry for every state but Closed; no entry is empty, lists its own state, or lists Start |
| ProtocolDfa.Transition | state.go:28-51 | a legal move yields exactly the requested state, which differs from the current one; from Closed the outcome is always the "no transitions defined" panic; any other refusal is the "invalid transition" panic naming both states |
| ProtocolDfa.LegalMoves | state.go:29-35 | the table exactly: Start→WaitingForJoin, WaitingForJoin→Joining, Joining→InGame/Closed, InGame→Resyncing/Closed, Resyncing→InGame/Closed, and nothing from Closed (both directions of each iff) |
| ProtocolDfa.NoReturnToHandshake | state.go:29-35 | no state can move to Start, and only Start can move to WaitingForJoin |
| ProtocolDfa.StateCell.constructor | client.go:15 | a new cell holds the given initial state |
| ProtocolDfa.StateCell.TransitionTo | state.go:37-50 | after looking up the table and scanning the allowed successors, the cell holds `next` exactly when the move is legal; otherwise it is unchanged and the corresponding panic is returned |
| Messages.KeysDistinct | message.go:6-13 | the eight JSON keys are pairwise distinct |
| Messages.ToObject | message.go:5-14 | protocol_version and type are always present with the field values; each omitempty key is present exactly when its field is non-zero or non-empty; every present key holds its field's value and none is null |
| Messages.StringField | message.go:7-13 | a string field decodes to its JSON string, to "" when missing or null, and fails with a type mismatch on any other JSON value |
| Messages.UInt8Field | message.go:10-12 | a uint8 field decodes to its number when it lies in 0..255, to 0 when missing or null, and fails otherwise |
| Messages.Int64Field | message.go:6 | protocol_version decodes to its number when it fits a 64-bit int, to 0 when missing or null, and fails otherwise |
| Messages.FromObject | utils.go:79 | json.Unmarshal into a Message succeeds exactly when every field is acceptable to its Go type, and then every field of the result is that field's decoding; a failure names a field that does not decode (the round trip is Messages.ObjectRoundTrip, the zero/null/absent equivalence Messages.ZeroNullAndAbsentAgree) |
| Messages.ObjectRoundTrip | message.go:5-14 | decoding the object built from any message gives that message back: omitting zero fields loses nothing |
| Messages.FromObjectCongruent | message.go:5-14 | two objects whose eight fields decode alike decode to the same result |
| Messages.OtherFieldsUnaffected | message.go:5-14 | changing or removing one key does not change how any other field decodes |
| Messages.ZeroNullAndAbsentAgree | message.go:8-13 | for every field, an explicit zero, an explicit null and a missing key give the same decoding result |
| Framing.PutUint32 | utils.go:42-43 | the length prefix is exactly 4 bytes |
| Framing.GetPutUint32 | utils.go:43 | reading back a big-endian header gives the 32-bit value that was written |
| Framing.GetUint32 | utils.go:71 | binary.BigEndian.Uint32: every 4-byte header is the encoding of the value it decodes to (the converse is Framing.GetPutUint32) |
| Framing.Encode | utils.go:36 | json.Marshal: with a faithful JSON syntax, the bytes parse back to an object that decodes to the message |
| Framing.Decode | utils.go:79-82 | json.Unmarshal of a body: the Malformed error exactly when the bytes are not a JSON object; on success every field of the parsed object decodes to the result's field |
| Framing.DecodeEncode | utils.go:36 | with a faithful JSON syntax, json.Unmarshal of json.Marshal of a message is that message |
| Framing.TakeFull | utils.go:64 | io.ReadFull of n bytes: succeeds exactly when n bytes are there, returning exactly the first n with the rest unread; otherwise reports EOF for no bytes at end of data, UnexpectedEOF for some, or the transport error, and consumes everything |
| Framing.Frame | utils.go:42-51 | a frame is 4 + len(body) bytes ending with the body; its header reads as len(body) mod 2^32, which is len(body) whenever that is below 2^32 |
| Framing.Transmitted | utils.go:45-54 | nothing reaches the stream when the prefix write fails; only the header when the body write fails; the whole frame when both succeed |
| Framing.ReadFrame | utils.go:60-85 | end of data before any byte is io.EOF unchanged; a reset or a 1-3 byte header is a length-read failure, never EOF; a short body is a body-read failure that consumes the stream; a full frame consumes exactly 4 + length bytes and yields the JSON decoding of the body |
| Framing.ReadFrameOfFrame | utils.go:60-85 | reading a frame with anything after it consumes exactly that frame and yields its decoded body |
| Framing.ReadAfterSend | utils.go:35-85 | with a faithful JSON syntax, readMessage after a complete sendMessage of m yields m and leaves the following bytes unread |
| Framing.OversizedBodyIsMisframed | utils.go:43 | a body of 2^32 bytes or more gets a header that declares fewer bytes than the body holds |
| Framing.Stream.constructor | utils.go:60 | a new stream holds the given inbound bytes and has nothing written |
| Framing.Stream.ReadFull | utils.go:64 | fills the array from the unread bytes, and consumes them; reports no error exactly when the array was filled; otherwise reports EOF for no bytes at end of data, UnexpectedEOF for some, or the transport error |
| Framing.Stream.Write | utils.go:45 | appends the data exactly when the transport accepts it, and reports whether it did |
| Framing.SendMessage | utils.go:35-55 | the stream's output grows by exactly the transmitted part of the frame of json.Marshal(msg) |
| Framing.ReadMessage | utils.go:60-85 | the result and the bytes consumed are those of ReadFrame |
| Server.SetupAck | server.go:87-92 | the GAME_SETUP_ACK echoes the protocol version, has status 0, grants the requested turn options, and leaves the other fields empty |
| Server.StateAckFor | server.go:104-107 | the STATE_ACK echoes the protocol version and leaves every other field empty |
| Server.Dispatch | server.go:72-126 | no guarded transitionTo in the switch can panic, for any state and any message |
| Server.Serve | server.go:59-67 | a failed read gives no transition and no reply; every reply echoes the request's version; a stream with no reply changes nothing; the only state change one stream can make is a join completing, from Start or WaitingForJoin to InGame |
| Server.DispatchTable | server.go:72-126 | join from Start enters WaitingForJoin, Joining, InGame and replies with the setup ack; join from WaitingForJoin enters Joining, InGame; join elsewhere does nothing; an update replies only in game; a resync in game enters Resyncing, InGame and replies; unknown types do nothing |
| Server.RepliesEchoVersion | server.go:87-121 | every reply carries the request's protocol version, and a message given no reply leaves the state unchanged |
| Server.ServeAll | server.go:45-52 | streams handled one after another change a connection's state only from Start or WaitingForJoin, and only to InGame |
| Server.ServePreservesQuiescent | server.go:58-127 | a stream handled in Start or InGame leaves the connection in Start or InGame, even when the read fails |
| Server.ServeAllQuiescent | server.go:45-52 | any number of streams handled one after another keep a resting connection in Start or InGame |
| Server.ConnectionRestsInStartOrInGame | server.go:43 | from the initial state, after every prefix of the streams, the connection is in Start or InGame |
| Server.InGameIsStable | server.go:97-122 | once in game, no sequence of streams moves the connection out of InGame |
| Server.InGameIffJoined | server.go:43-94 | a new connection ends in game exactly when one of its streams carried a readable join request, and is otherwise still in Start |
| Server.InterleavedJoins | server.go:76-85 | two join handlers interleaved from Start both pass the WaitingForJoin guard; the first moves the cell to Joining and the second's transitionTo(Joining) is refused with the invalid-transition panic (Joining → Joining) |
| Server.HandleStream | server.go:58-127 | on the state cell and the stream: no panic; consumes one frame; the new state is the dispatch table's; the output grows by the reply frame, if any |
| Client.JoinGame | client.go:61-96 | no transitionTo in sendJoinGame can panic, from any state and whatever the network does |
| Client.Resync | client.go:127-156 | no transitionTo in sendResyncRequest can panic, from any state and whatever the network does |
| Client.JoinGameOutcomes | client.go:61-96 | outside Start nothing happens; a stream that cannot be opened leaves WaitingForJoin; a GAME_SETUP_ACK reply ends InGame; any other reply or a read failure leaves Joining after the request was sent |
| Client.MakeMove | client.go:98-125 | sendStateUpdate never changes the state, and sends the move exactly when in game with an opened stream |
| Client.ResyncOutcomes | client.go:127-156 | outside InGame nothing happens; a stream that cannot be opened leaves Resyncing; a STATE_ACK reply returns to InGame; anything else leaves Resyncing after the request was sent |
| Client.StuckStatesRefuseEverything | client.go:61-156 | in WaitingForJoin, Joining or Resyncing every menu action is refused: nothing is sent and nothing changes |
| Client.StuckIsPermanent | client.go:34-58 | a client left in WaitingForJoin, Joining or Resyncing stays there for every later sequence of actions |
| Client.RunActions | client.go:34-58 | over any sequence of menu actions the client is in Closed at the end exactly when it was at the start: it never reaches Closed |
| Client.SendJoinGame | client.go:61-96 | on the global state cell: no panic; the new state and the request sent are those of JoinGame |
| Client.SendStateUpdate | client.go:98-125 | the move is sent exactly as MakeMove says, and the state is not written |
| Client.SendResyncRequest | client.go:127-156 | on the global state cell: no panic; the new state and the request sent are those of Resync |
| Session.JoinHandshake | server.go:75-94 | the client's join request on a new connection is answered with status 0, agreed options 1 and version 1, and that reply takes the client from Start to InGame, as the server is |
| Session.JoinHandshakeOverWire | utils.go:35-85 | the setup ack frame the server writes in full is read back by the client as the same message with nothing left over, and it takes the client to InGame |
| Session.LostSetupAckDesynchronises | client.go:85-89 | when the setup ack is lost, the server is in game while the client stays in Joining for every later action |
| Session.ResyncRoundTrip | server.go:110-122 | a resync in game passes through Resyncing on the server, and its STATE_ACK returns the client to InGame |
| Session.MovesAreRepeatable | server.go:97-107 | every move in game is acknowledged, and any number of moves leave the server in game and the client unchanged |

## Left out

- cert.go (generateTLSConfig, which builds a self-signed TLS configuration for the server) is not part of this model.
- main.go is not part of this model. It loads config.json with loadConfig, reads the mode ("s" or "c") from standard input with fmt.Scanln, and starts the server or the client.
- loadConfig (utils.go:22-30) reads a file from disk. The file contents and the I/O are outside the model.
- runServer, handleClient's accept loop and runClient's menu loop are left out because they are I/O loops. Their effect is modelled as sequences of streams (`Server.ServeAll`) and sequences of menu actions (`Client.RunActions`). Reading the menu choice from standard input is not modelled.
- Concurrency is left out. The model assumes that a connection's streams are handled one at a time, in order, and all server lemmas rest on that assumption. In the source, each handleStream runs in its own goroutine and checks and updates the shared state without a lock. That check-then-act is not atomic and can panic; `Server.InterleavedJoins` shows one such interleaving. Other interleavings are not explored.
- Client.Exchange: every readMessage is taken to return. The source sets no time-out: the client opens its streams with `context.Background()` and no deadline, and handleStream returns without replying or closing the stream when the state is wrong, the type is unknown or the read fails. In those cases the client's readMessage blocks until the connection ends, and the action never completes, in the state it has reached so far (Joining or Resyncing). The model's lemmas cover only actions that complete.
- The JSON text syntax is a parameter (`JsonText`) with a round-trip hypothesis (`Faithful`). It is not an encoding/json implementation. This covers escaping, whitespace, number formats, duplicate keys and Go's case-insensitive matching of keys to fields.
- Messages.FromObject: when several fields are ill-typed, Go reports the first one it meets in the document. The model reports the first in field declaration order.
- Stream.Write: a write is either accepted whole or not at all. Partial writes are not modelled.
- json.Marshal errors are not modelled: marshaling this struct of strings and integers cannot fail.
- ProtocolState values outside 0..5 are not modelled. Go's String() would panic on them, but no code in the core produces one.
- Logging is left out. This includes the log line handleStream prints when a read error mentions "application error". Both that branch and the generic read-failure branch just return, so the model does not tell them apart.
- Transport errors carry an opaque reason string. QUIC's stream-reset codes and connection errors are not distinguished.
- Closing a stream (`defer stream.Close()`) is not modelled. The model treats each exchange's stream as used once.
- Framing.Decode: a body that is not a JSON object is `Malformed`. json.Unmarshal accepts a top-level `null` and leaves the message at its zero value; in the model that is up to the `JsonText` parameter, which would have to parse it as the empty object.

## Findings

| source | as written | input that shows it | evidently intended | confidence | as-written member | corrected member |
|---|---|---|---|---|---|---|
| server.go:51 | each stream's handleStream runs in its own goroutine and reads, checks and writes the connection's state with no lock | two JOIN_GAME_REQUEST streams on a new connection: the first handler moves Start to WaitingForJoin, the second then passes the guard at server.go:80, the first moves to Joining, and the second's transitionTo(Joining) panics with "Invalid transition: Joining → Joining", ending the server process | a connection's streams handled one at a time (or under a lock), so that no transitionTo in handleStream can panic | medium, not executed | Server.InterleavedJoins | Server.HandleStream |
