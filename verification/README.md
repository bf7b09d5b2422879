# kyberchat relay and Kyber bridge, modelled in Dafny

kyberchat is a one-to-one chat over WebSockets. The browser clients encrypt
their messages with a Kyber (ML-KEM) shared secret. This project models two
parts of it:

- **The relay server (server.js).** The module-level state is `connectedUsers`,
  `clientKeys`, `activeChats` and `nextUserId`. Each open socket carries
  `ws.userId` and `ws.username`.
  - `Relay.Server` is a class that holds all of that state. It has one method
    per branch of the `message` handler (`pubkey`, `request_chat`,
    `accept_chat`, `reject_chat`, `end_chat`, the relayed payload kinds, any
    other type, and text that does not parse), plus the `close` handler and
    `broadcastUserListUpdate`.
  - Every frame the server sends is appended to `outbox` as a (connection,
    frame) delivery. Each `wss.clients.forEach` loop becomes `Deliver`. It is
    proved equal to `Fanout(Recipients(conns, filter), frame)`, the sends to
    the open connections the filter admits, in connection order.
  - The directory transitions are pure functions in module `Directory`: the
    identity rule, the write made by `pubkey`, pairing, unpairing and
    disconnecting. The handlers are proved to produce exactly those
    transitions. The lemmas beside the functions say which invariants the
    transitions keep and which they break.
  - The insertion order of a JavaScript `Map` (module `OrderedKeys`) is kept
    next to each map. This is the order in which user-list broadcasts and the
    key replay enumerate entries.
- **The browser Kyber bridge (public/kyber.js).** `Kyber.KyberBridge` holds
  the closure state `sizes` and `initialized`.
  - `Ready` fills the sizes from the WASM getters. A zero getter falls back to
    the ML-KEM-512 lengths of section 8 of FIPS 203 (800/1632/768/32).
  - Every operation is guarded by `initialized`.
  - The KEM entry points are parameters (`Kem`), left uninterpreted. The
    wrappers copy inputs into fixed-size buffers and read fixed-size outputs
    back.
  - `encrypt` XORs the message with a keystream derived from the shared
    secret and frames the result after the KEM ciphertext. `decrypt` undoes
    this. The two are proved to round-trip.

Where the code and the intended design disagree, the model follows the code
and proves the consequence:

- `accept_chat` does not re-check that the two users are idle. Pairing two
  idle users keeps mutual `chatWith` (`PairingIdleUsersKeepsSymmetry`). An
  acceptance by a third user of a requester who is already paired breaks it
  (`AcceptOfPairedRequesterBreaksSymmetry`).
- `end_chat` deletes the session under `ender_peer` (unsorted), while
  `accept_chat` stores it under the sorted pair. The session outlives
  `end_chat` when the ender's id sorts second and the two ids have equal
  length (`EndChatLeaksSession`), or when both are minted ids
  (`EndKeyMissesForMintedIds`). Ids of different lengths can still meet the
  key: ender `a_a` and peer `a` give `a_a_a` both ways.
- `close` never touches `activeChats`. `Relay.Server.HandleClose` cannot
  change `chats`, because its `modifies` clause leaves them out.
- Re-sending `pubkey` while paired resets only the sender's record
  (`UpsertWhilePairedBreaksSymmetry`).
- A minted id is never checked against the directory. After a client reuses
  `user_n` as its saved id while the counter is still `n`, the next minted id
  is the same `user_n`, which is in use (`MintedIdMayBeInUse`). Two open
  connections can then hold the same id, and a directed relay reaches both
  (`RecipientsExactly`).

## Model

| member | source | states |
|---|---|---|
| Text.Before | server.js:162 | The order of the default `.sort()`. An id that sorts strictly before another differs from it. |
| Text.BeforeFirstDifference | server.js:162 | A reference statement of that order: a proper prefix sorts first; otherwise the first differing character decides. |
| Text.BeforeIrreflexive | server.js:162-163 | No id sorts before itself under JavaScript's default string order. |
| Text.BeforeAsymmetric | server.js:162-163 | Two ids never each sort before the other. |
| Text.BeforeTotal | server.js:162-163 | Of two different ids, one always sorts first. The sorted pair is therefore determined. |
| Text.Decimal | server.js:50 | The numeral of the counter is a non-empty string of decimal digits, with two or more digits exactly when the counter is at least 10, and no leading zero: it starts with `0` only for 0 itself. |
| Text.DecimalInjective | server.js:50 | Different counter values render as different numerals. |
| Text.DigitsValue | server.js:50 | The number a digit string denotes; a single digit denotes its own value. |
| Text.DecimalDenotes | server.js:50 | The numeral of `n` denotes `n`, so the counter is rendered correctly and not merely injectively. |
| Text.Utf16Length | server.js:273 | JavaScript's `length`: between one and two code units per character, and exactly one per character when all lie in the Basic Multilingual Plane. |
| Text.Utf16LengthBelowTwo | server.js:273 | A string is shorter than two code units iff it is empty or a single Basic Multilingual Plane character. |
| OrderedKeys.Insert | server.js:56-64 | `Map.set` adds the key if it is new and keeps the old order as a prefix. Keys stay duplicate-free. |
| OrderedKeys.Remove | server.js:308-312 | `Map.delete` drops exactly that key, keeps the others and their duplicate-freedom, and changes nothing for an absent key. |
| OrderedKeys.RemoveKeepsOrder | server.js:308-312 | Deleting a key that occurs once cuts it out where it stands. The keys before and after it keep their relative order, which the broadcast after `close` lists. |
| OrderedKeys.InsertTracks | server.js:56-64 | After `set`, the order lists the new key set exactly once each. |
| OrderedKeys.RemoveTracks | server.js:308-312 | After `delete`, the order lists the remaining keys exactly once each. |
| Directory.MintedId | server.js:50 | Minted ids are `user_` followed by the counter's numeral. |
| Directory.MintedIdInjective | server.js:50 | Distinct counter values mint distinct ids. |
| Directory.DefaultUsername | server.js:53 | The default display name is the three-syllable Korean prefix followed by the counter's numeral. |
| Directory.DisplayName | server.js:53 | The name a new connection keeps is never empty. It is the frame's `username` when that is truthy, otherwise the default for the counter's previous value. |
| Directory.ChooseId | server.js:29-52 | A connection without an id reuses the saved id exactly when it is truthy and not a key of the directory (`isUserIdInUse`). Otherwise it gets `user_{next}` and the counter goes up by one. |
| Directory.MintedIdMayBeInUse | server.js:46-50 | For every counter value `n` and every directory without `user_n`: after `user_n` is reused as a saved id, the next minted id equals it and is already in use. |
| Directory.Upsert | server.js:57-64 | `pubkey` writes a connected, idle record with the frame's key under the id, whatever was there. No other record changes. Records stay well formed. |
| Directory.UpsertWhilePairedBreaksSymmetry | server.js:56-64 | Re-identifying a paired user leaves its partner naming it, so pairing is no longer mutual. |
| Directory.RequestError | server.js:93-121 | `request_chat` succeeds iff both ids are known and both users are idle. Unknown users are reported first, then a busy target (with the target's name), then a busy sender. |
| Directory.Paired | server.js:155-159 | Acceptance puts both records in a chat naming each other. Nothing else about them changes, no other record changes, and records stay well formed. |
| Directory.PairingIdleUsersKeepsSymmetry | server.js:155-159 | Pairing two idle users keeps `chatWith` mutual. |
| Directory.AcceptOfPairedRequesterBreaksSymmetry | server.js:147-159 | Without a re-check, accepting a requester who is already paired breaks mutual pairing. |
| Directory.Unpair | server.js:214-220 | One record becomes idle (if present). No other record changes. |
| Directory.Unpaired | server.js:209-220 | `end_chat` makes both the ender and its partner idle and leaves everything else as it was. |
| Directory.UnpairingKeepsSymmetry | server.js:209-220 | Ending a mutual pairing keeps pairing mutual for everybody. |
| Directory.EndedPairMayRequestAgain | server.js:93-121 | After `end_chat`, a `request_chat` between the same two users succeeds in either direction. |
| Directory.PeerOf | server.js:287-294 | `close` notifies a partner exactly when the closer's record is in a chat whose partner record exists. |
| Directory.Disconnected | server.js:287-308 | `close` removes the closer's record, makes an existing partner idle, and leaves every other record unchanged and well formed. |
| Directory.DisconnectKeepsSymmetry | server.js:287-308 | Disconnecting keeps pairing mutual. |
| Sessions.SortedPair | server.js:162 | The pair as `[a, b].sort()` leaves it: the same two ids, the smaller first. |
| Sessions.ChatIdOf | server.js:162-163 | The session id starts with the id that sorts first, then `_`, then the other id. Its length is the two ids' lengths plus one. |
| Sessions.ChatIdSymmetric | server.js:162-163 | The session id does not depend on which side accepted. |
| Sessions.FirstTwoMintedIds | server.js:50 | The first two minted ids are `user_1` and `user_2`, and the first sorts before the second. |
| Sessions.FirstTwoUsersChatId | server.js:162-163 | `user_1` and `user_2` chat under `user_1_user_2` whoever accepts. |
| Sessions.EndKey | server.js:223 | The key `end_chat` deletes is the ender's id, `_`, then the partner's id. |
| Sessions.EndKeyHitsWhenEnderSortsFirst | server.js:223-224 | When the ender's id sorts first, the deleted key is the session id. |
| Sessions.EndKeyMissesWhenEnderSortsSecond | server.js:223-224 | When the ender's id sorts second (ids of equal length), the deleted key is never the session id. |
| Sessions.EndKeyMissesForMintedIds | server.js:162-224 | For minted ids of any lengths (`user_9` ending a chat with `user_10`, say), an ender whose id sorts second deletes a key that is not the session id. |
| Sessions.EndChatLeaksSession | server.js:222-224 | In that case the session is still in `activeChats` after the delete. |
| Routing.Admits | server.js:247-258 | The filter of a `forEach`: it admits only open sockets, never the sender for "all but", and only sockets holding the id for a directed send. |
| Routing.Recipients | server.js:247-258 | The connections a `forEach` sends to are connection indices that are open and pass the filter. |
| Routing.RecipientsExactly | server.js:247-258 | A connection receives iff it is open and passes the filter (sender excluded, or holding the target id). |
| Routing.RecipientsIncreasing | server.js:327-331 | Each connection receives at most once, in connection order. |
| Routing.Fanout | server.js:247-251 | One delivery of the same frame per recipient, in recipient order. |
| Routing.KeyReplay | server.js:79-83 | Every replayed frame goes to the new connection and is the stored frame of another open connection. There are no more frames than stored keys. |
| Routing.ReplayPositions | server.js:79-83 | The key-order positions whose frames are replayed are positions of the key order. |
| Routing.ReplayPositionsIncreasing | server.js:79-83 | Those positions strictly increase, so the replay follows key order. |
| Routing.ReplayPositionsExactly | server.js:79-83 | A position is replayed iff its connection is another open one. |
| Routing.KeyReplayFollowsPositions | server.js:79-83 | Replayed frame `i` is the stored frame at the `i`-th replayed position, sent to the new connection. |
| Routing.KeyReplayOncePerKey | server.js:79-83 | With duplicate-free key order, a connection's stored frame is replayed iff it is another open connection, and no connection's frame is replayed twice. |
| Routing.Snapshot | server.js:322-325 | The broadcast lists one record per key, entry `i` being the current record of the `i`-th key in key order. |
| Routing.SnapshotListsEachUserOnce | server.js:322-325 | A broadcast lists every user exactly once, each with its current record. |
| Relay.RequestIdOf | server.js:130 | The informational `requestId` is the requester's id, `_`, the target's id, `_`, then the decimal numeral of the clock reading. |
| Relay.FallbackRelay | server.js:268-282 | Unparseable text shorter than two UTF-16 code units is dropped. Otherwise a connection receives the text verbatim iff it is open and not the sender. |
| Relay.AstralCharacterIsRelayed | server.js:273-281 | A single character outside the Basic Multilingual Plane is two code units long, so every other open connection receives it. |
| Relay.Server.constructor | server.js:23-26 | The server starts with empty maps, no connections and the counter at 1. |
| Relay.Server.Connect | server.js:33 | A new connection is open, has no id, and gets the next index. |
| Relay.Server.Deliver | server.js:327-331 | The `forEach` loop appends exactly `Fanout(Recipients(conns, filter), frame)` to the outbox. |
| Relay.Server.BroadcastUserList | server.js:321-332 | The broadcast is the directory snapshot, sent to every open connection. |
| Relay.Server.ReplayKeys | server.js:79-83 | The loop over `clientKeys` appends exactly `KeyReplay` of the stored frames. |
| Relay.Server.Identify | server.js:44-54 | Identity is sticky: a connection with an id keeps it and the counter stays. Otherwise its id and name are `ChooseId`'s and the counter follows. Other connections are unchanged. |
| Relay.Server.StoreKey | server.js:56 | `clientKeys.set(ws, data)` with its key order. |
| Relay.Server.PutUser | server.js:57-64 | The record write with its key order. The invariant is kept. |
| Relay.Server.HandlePubkey | server.js:42-90 | Sticky identity, stored frame, fresh idle record, then `user_id` to the sender, the broadcast, the key replay and the relay of the frame to all others, in that order. |
| Relay.Server.Register | server.js:56-90 | The state writes and sends of `pubkey` once the connection has an id. |
| Relay.Server.Announce | server.js:68-90 | The four groups of frames `pubkey` sends, in source order. |
| Relay.Server.HandleRequestChat | server.js:91-139 | On error, exactly one `chat_error` to the sender. Otherwise `chat_request` to the target's connections, then `chat_request_sent`. The state is unchanged. |
| Relay.Server.HandleAcceptChat | server.js:141-189 | An unknown id gives `chat_error` and no change. Otherwise both records are paired, the session is stored under the sorted id, `chat_started` goes to both sides, and the broadcast follows. Symmetry is kept when both were idle. |
| Relay.Server.StartPair | server.js:155-169 | The pairing and session writes of `accept_chat`. |
| Relay.Server.HandleRejectChat | server.js:191-205 | `chat_rejected` goes to the requester's connections. For an unknown rejecter, the throw inside the loop sends the text down the catch path if some connection would have received it. |
| Relay.Server.HandleEndChat | server.js:207-241 | A no-op unless the sender is in a chat. Otherwise both sides go idle, the unsorted key is deleted, `chat_ended` goes to both, and the broadcast follows. Symmetry is kept. |
| Relay.Server.EndPair | server.js:209-224 | The unpairing and the delete of `end_chat`. |
| Relay.Server.HandlePayload | server.js:243-259 | `message`, `kyber_ct` and `encrypted_message` go verbatim to the holders of a truthy target id, otherwise to all others. |
| Relay.Server.HandleMalformed | server.js:268-282 | The catch path appends exactly `FallbackRelay`. |
| Relay.Server.HandleMessage | server.js:36-283 | Only `pubkey` changes connections, stored frames and both key orders. Only accept and end change sessions. The counter never decreases. Symmetry is kept except by `pubkey` and `accept_chat`. |
| Relay.Server.HandleChatFrame | server.js:91-282 | Frames other than `pubkey` change only records, sessions and outbox, and only accept and end change records or sessions. It states the new records and sessions after accept and end and what they send. Every other frame sends exactly `Routed`, the branch-by-branch sends of `Route`. |
| Relay.Server.Route | server.js:91-282 | Only the outbox changes. It sends exactly `Routed`: the refusal or the request and its confirmation for `request_chat`, the rejection notice or fallback for `reject_chat`, the directed or broadcast payload, any other `type` verbatim to the other connections, and unparseable text by the catch path. |
| Relay.Server.DropUser | server.js:287-310 | The directory becomes `Disconnected`, and the key order drops the id. `chat_ended` goes to the partner's connections. Symmetry is kept. |
| Relay.Server.Detach | server.js:285 | The closed socket no longer receives anything. |
| Relay.Server.DropKey | server.js:312 | `clientKeys.delete(ws)` with its key order. |
| Relay.Server.HandleClose | server.js:285-317 | The socket is closed first. A known user is removed and its partner notified and made idle. The stored frame is dropped and the broadcast follows. `activeChats` is outside the frame. |
| Kyber.OrDefault | public/kyber.js:67-70 | `x \|\| d` on sizes: the value when nonzero, else the default. Always positive. |
| Kyber.WithDefaults | public/kyber.js:59-70 | Each size is the getter value when nonzero, else its ML-KEM-512 default. All-zero getters give 800/1632/768/32. |
| Kyber.Fit | public/kyber.js:130-135 | A `Uint8Array(n)` after `view.set(bytes)`: the bytes, then zeros, of length `n`. |
| Kyber.ReadBack | public/kyber.js:96-101 | A read of an `n`-byte buffer has length `n` and starts with what the C side wrote. |
| Kyber.KeyByte | public/kyber.js:195-197 | Keystream byte `i` XORed with the secret's bytes `i+1` and `i+2` (cyclically) gives back byte `i`. An empty secret gives 0, and a one-byte secret gives that byte. |
| Kyber.Scrambled | public/kyber.js:193-199 | Same length as the input. Byte `i` differs from the input by keystream byte `i`. |
| Kyber.ScrambleInvolution | public/kyber.js:194-199 | Applying the keystream XOR twice gives the data back. |
| Kyber.KeystreamPeriodic | public/kyber.js:195-197 | The keystream repeats with the length of the shared secret. |
| Kyber.ScrambleBytes | public/kyber.js:193-199 | The indexed loop computes `Scrambled`. |
| Kyber.KyberBridge.constructor | public/kyber.js:11-12 | Sizes start at 0/0/0/32, not initialized. |
| Kyber.KyberBridge.Ready | public/kyber.js:30-80 | A no-op once ready. A failed load yields false and changes nothing. A completed load stores `WithDefaults` of the getters and marks the bridge ready. The result equals the ready flag. |
| Kyber.KyberBridge.Keypair | public/kyber.js:106-125 | Throws when not ready or on a nonzero code, and succeeds iff ready with a zero code. On success the keys are the buffers read back from the C output, of the configured sizes. |
| Kyber.KyberBridge.Encapsulate | public/kyber.js:127-157 | Throws when not ready or when the key is longer than `sizes.pk`. Succeeds iff the primitive does. Returns the ciphertext and secret read back from the C output, of the configured sizes. |
| Kyber.KyberBridge.Decapsulate | public/kyber.js:159-184 | Throws when not ready or when an input is longer than its buffer. Succeeds iff the primitive does. Returns the secret read back from the C output, of size `sizes.ss`. |
| Kyber.KyberBridge.CiphertextLength | public/kyber.js:211 | `sizes.ct \|\| 768`: `sizes.ct` when that is set, 768 otherwise. |
| Kyber.KyberBridge.EncryptOf | public/kyber.js:187-205 | Fails exactly when `encapsulate` does, with its error. Otherwise returns the ciphertext followed by the message XOR the keystream, of length `sizes.ct + \|msg\|`. |
| Kyber.KyberBridge.DecryptOf | public/kyber.js:207-230 | Throws when not ready or when the input is shorter than the ciphertext length. Succeeds iff ready, long enough and decapsulation of the prefix succeeds; a decapsulation error is passed through. On success it returns the suffix XOR that secret's keystream. |
| Kyber.KyberBridge.Encrypt | public/kyber.js:187-205 | The imperative `encrypt` returns exactly `EncryptOf`. |
| Kyber.KyberBridge.Decrypt | public/kyber.js:207-230 | The imperative `decrypt` returns exactly `DecryptOf`. |
| Kyber.NotReadyGuardsEverything | public/kyber.js:106-209 | Before `ready` succeeds, all five operations throw "not ready". |
| Kyber.ReadySplitsAtCiphertextSize | public/kyber.js:211 | Once ready, `decrypt` splits at `sizes.ct`, so the 768 fallback is never used. |
| Kyber.EncryptDecryptRoundTrip | public/kyber.js:187-230 | If decapsulating the ciphertext `encapsulate` produced yields the same secret, `decrypt(encrypt(msg))` is `msg`. |

## Left out

- HTTP serving: the Express static server, its headers and `listen` (server.js:1-20, 334-339). This is I/O plumbing.
- JSON parsing and serialisation:
  - Inbound frames arrive already classified as `Body` values.
  - Outbound frames are `Out` values.
  - A stored `pubkey` frame is replayed as its received text rather than `JSON.stringify` of the parsed object.
  - Fields of non-string type (numbers, objects as ids) are not modelled. "Truthy" means present and non-empty.
- Logging: `console.log` and `console.error` have no observable effect on state.
- Clocks: `Date.now()` in `requestId` and `new Date()` in the session are parameters (`millis`, `startTime`).
- Relay.Server.HandleRequestChat: one clock reading `millis` stands for all of the readings. server.js:124-133 reads `Date.now()` once per open holder of the target id, so two holders of one id (possible after a minted-id collision) may receive different `requestId`s. In the model they always receive the same one. `Route` and `HandleChatFrame` inherit this.
- Directory.ChooseId: the counter `nextUserId` is an unbounded natural number. In the source it is a JavaScript Number, so `nextUserId++` stops increasing at 2^53 and `${n}` switches to exponent notation from 10^21. `MintedIdInjective` and `Text.Decimal` hold only for the unbounded counter.
- Socket life cycle: sends on an open socket never fail. `readyState` is only open or closed. A message arrives only on an open socket.
- Relay.Server.HandleClose: that `activeChats` is untouched is stated by its `modifies` clause, which leaves `chats` out, rather than by an `ensures`.
- Relay.Server.HandleMessage: states only what each frame kind may change, plus the invariants. What each frame kind sends is stated by `HandlePubkey` and `HandleChatFrame`.
- Text.Before: compares Unicode scalar values. JavaScript compares UTF-16 code units, which differ only for characters outside the Basic Multilingual Plane. Lengths are counted in code units where the server uses them (`Text.Utf16Length`).
- The Kyber primitive: `loadScript`, `KyberModule`, `cwrap`, `heapAlloc`, `_malloc`/`_free` and the WASM heap are foreign code.
  - A load is either a failure or four getter values (`Load`). A failing `_malloc` (pointer 0) is not modelled.
  - Bytes the C side leaves unwritten in an output buffer read back as zero (`ReadBack`).
  - Negative getter values are not modelled.
  - The `window.KyberSizes` alias of `sizes` is not modelled.
- Text encoding: `TextEncoder` and `TextDecoder` are left out. Messages are byte sequences, and invalid UTF-8 on decoding is not modelled.
- Concurrency: none exists. Each handler runs to completion, and `async` operations are sequential.
