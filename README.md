# ts-entangle, modelled in Dafny

ts-entangle keeps a JavaScript object on a server "entangled" with mirrors on
its clients over a WebSocket. The server wraps its target object in a proxy:
every write or delete of a readable key made through that proxy is broadcast
as a `set` message to every connected socket. Clients may write keys back and call the target's
methods remotely. Per-key permissions are computed once, when the server is
created.

Two client sides exist:
- The object-mirror adaptor (`src/adaptor.ts`) speaks the `op`-based protocol
  of `src/types.ts`.
- The `Client`/`Service` pair of `src/client.ts` speaks a letter-coded
  protocol (`o: "W" | "D" | "S" | "U" | "C"` requests; `"D" | "W" | "F" |
  "C" | "E" | "Y"` responses). It sits on an `EntangleAdaptor` that owns the
  socket and the reconnection policy.

Call ids come from `src/utils/id.ts`. An id packs a signed 32-bit Unix second
and a 32-bit random value into 8 bytes. A per-second bucket of issued random
values prevents duplicates. The id prints as unpadded base64url.

The model has one module per concern:

| module | file | what it holds |
|---|---|---|
| `Wrappers` | wrappers.dfy | `Option`, and `Outcome` (returned normally, or threw with a message) |
| `Seqs` | seqs.dfy | duplicate-free sequences, and removing one element from an insertion order |
| `Wire` | wire.dfy | JavaScript values, `String(v)`, truthiness, the `op` messages of `src/types.ts` and the object literals they are sent as |
| `KeyAlgebra` | key_algebra.dfy | `PickKeys`, `OmitKeys`, `FreezeKeys`, `AsyncWrappedObject`, `EntangledObject` as functions on object types, typed as under `strictNullChecks` |
| `Permissions` | permissions.dfy | the key list, the per-key decision and the loop that fills `readables`/`writables` |
| `EntangleServer` | server.dfy | class `Server`: the target, clients, one outbox per socket, the proxy traps, the `set`/`call` handlers |
| `EntangleClient` | client.dfy | classes `Adaptor` (`EntangleAdaptor`) and `Client`, with the services' mirrors and outstanding calls |
| `LegacyAdaptor` | legacy_adaptor.dfy | class `Mirror`: `props`, outstanding calls and the proxy traps of `createClientAdaptor` |
| `Ids` | ids.dfy | classes `EKeyRegistry`/`EKey` and `IdGenerator`; the 8-byte layout, the timestamp and the base64url text with its decoder |

Everything outside the program is a parameter or an explicit event:
- Whether a `Reflect.set`/`Reflect.deleteProperty` succeeds is the `accepted`
  parameter.
- How awaiting a server method ends is an `Invocation`.
- Whether an injected `send` throws is a `failure` parameter.
- The clock readings and random draws of the id generator are a `Draw` list.
- Call ids and uuids are parameters.
- A timer firing is an `Expire` call.
- A socket opening or closing is an `OnOpen`/`OnDisconnect` call.
- What a socket is sent is an append to a sequence (`outbox`, `wire`, `sent`).

In these places the model follows the code as written:
- `isWritable` (src/server.ts:31) looks up `readables`, so the `writables`
  table is computed and never consulted. Client read-only settings are not
  enforced on the write path (`EntangleServer.ClientReadonlyNotEnforced`).
- A `set` request for a key that fails the write check is answered with
  `set(key, undefined)` to the sender. This happens for an omitted key too.
  The reply tells the sender that the key is closed, but never its value. A
  key with no table entry would instead be accepted and broadcast.
- The permission table holds only the target's own names and the picked,
  omitted and read-only lists (src/server.ts:42-47). A key named only in
  `permissions`, or created after the server, has no entry. Such a key is
  readable and writable even under `pickedKeys` or `clientReadonly`
  (`EntangleServer.UnlistedKeyOpen`).
- A refused or throwing proxy write still broadcasts. It sends the value the
  target holds afterwards, because the broadcast sits in a `finally` block.
- `cached` is stored and never read. No mirror is cleared on disconnect, and
  no `change` event is ever emitted.
- Assigning a function through the legacy proxy stores it locally first and
  only then throws.
- The per-second id bucket is dropped by a timer of 9 ms, not about a second.
  The model leaves when that deletion runs to the caller (`IdGenerator.Expire`).

## Model

| member | source | states |
|---|---|---|
| Wire.ResponseRecord | src/types.ts:13-37 | the object a server response is sent as carries the `op` tag of its kind |
| Wire.RequestRecord | src/types.ts:39-52 | the object a client request is sent as carries `op` `"call"` or `"set"` |
| Wire.ResponseRoundTrip | src/types.ts:13-37 | reading a sent response back by its `op` (and by `"error" in data`) yields the same response |
| Wire.RequestRoundTrip | src/types.ts:39-52 | reading a sent request back by its `op` yields the same request |
| Wire.ErrorFieldDiscriminates | src/types.ts:24-35 | a function return has an `error` field iff it is a failure, and that field is `true` |
| Wire.OpTagsDistinct | src/types.ts:13-52 | two responses (or two requests) carry the same `op` tag iff they are of the same kind |
| KeyAlgebra.PickKeys | src/types.ts:61-64 | no list leaves the type as it is; a list keeps exactly the listed keys, with their types |
| KeyAlgebra.OmitKeys | src/types.ts:66-69 | no list leaves the type as it is; a list removes exactly the listed keys |
| KeyAlgebra.IndexedType | src/types.ts:10 | `T[K]` of a property is its type, widened by `undefined` iff optional; it is a function type iff the property is a required method |
| KeyAlgebra.FreezeKeys | src/types.ts:71-84 | same keys; without a list nothing changes; with one, a key is read-only iff it is listed, no key is optional, and each key has the type `T[P]` (an optional key's type widened by `undefined`), since both mapped types drop the modifiers of `T` |
| KeyAlgebra.AsyncFunction | src/types.ts:1-7 | same parameters; the result is a promise, wrapped only when it was not one already |
| KeyAlgebra.AsyncWrapped | src/types.ts:9-11 | same keys, read-only and optional modifiers; a required method is wrapped; every other member, an optional method (read as `F` or `undefined`) included, is unchanged |
| KeyAlgebra.EntangledObject | src/types.ts:85-92 | the keys are those of `T` that are picked (or all, without a pick list) and not omitted |
| KeyAlgebra.EntangledObjectShape | src/types.ts:85-92 | an entangled object has the picked keys minus the omitted ones; with a read-only list, read-only iff listed and never optional, without one the original modifiers; a required method returns a promise; every other member has its type, or `T[K]` under a read-only list, so an optional method stays unwrapped |
| KeyAlgebra.AsyncWrappedIdempotent | src/types.ts:1-11 | wrapping twice is wrapping once |
| Permissions.Dedup | src/server.ts:44-47 | the result is no longer than the input and holds exactly its keys |
| Permissions.TableKeys | src/server.ts:42-47 | the key list is duplicate-free and holds exactly the own names and the picked, omitted and read-only keys |
| Permissions.DedupSpec | src/server.ts:42-47 | the key list holds exactly the input keys, each once, in order of first occurrence |
| Permissions.FindPermission | src/server.ts:58 | the entry found names the key; none is found iff no entry names it |
| Permissions.FindFirst | src/server.ts:58 | `find` returns the first entry naming the key |
| Permissions.BuildTables | src/server.ts:49-72 | both tables have exactly the listed keys; each entry is the decision for that key |
| Permissions.Decide | src/server.ts:49-72 | an omitted key, or one missing from a given pick list, is neither readable nor writable; under `clientReadonly` no key is writable |
| Permissions.NoEntryIgnoresReadonlyKeys | src/server.ts:58-63 | a selected key without an entry is readable, and writable iff not client-read-only, even when listed in `readonlyKeys` |
| Permissions.EntryDecides | src/server.ts:64-71 | with an entry, readable is its `readable ?? true`; writable is false under `clientReadonly` or `readonlyKeys`, else `writable ?? readable ?? true` |
| EntangleServer.IsReadableIn | src/server.ts:30 | a key is readable iff it is missing from `readables` or its entry is true |
| EntangleServer.MemberAt | src/server.ts:106 | `target[key]` is the own property when present, else `undefined` |
| EntangleServer.ErrorText | src/server.ts:158 | an `Error` gives its message; another thrown value gives `String(e)` when truthy, else "Unknown Error" |
| EntangleServer.SyncMessage | src/server.ts:86-114 | nothing is sent iff the key fails the write check and `clear` is false; a key passing it is announced with its member; a failing key with `clear` gets `set(key, undefined)` with `func` false |
| EntangleServer.InitialSync | src/server.ts:117-123 | the connect-time sync sends at most one message per key |
| EntangleServer.IsWritableIn | src/server.ts:30-31 | the write check equals the read check |
| EntangleServer.ClientReadonlyNotEnforced | src/server.ts:27-31 | a key decided unwritable by `clientReadonly` still passes the write check |
| EntangleServer.UnlistedKeyOpen | src/server.ts:27-47 | a key outside the table's key list passes both checks, though its decision would close it under `pickedKeys` and make it unwritable under `clientReadonly` |
| EntangleServer.InitialSyncSpec | src/server.ts:86-123 | the connect-time sync sends only `set` messages for writable-checked keys with their current member, each such key exactly once, the others never |
| EntangleServer.SyncSent | src/server.ts:86-114 | without `clear`, `sync` sends one message exactly when the key passes the write check, and that message announces the key's current member |
| EntangleServer.InitialSyncDisclosesNothing | src/server.ts:86-123 | no message of the connect-time sync shows the value or the method flag of a key closed to reading |
| EntangleServer.CallReply | src/server.ts:141-161 | the reply is a `return` for the request's uuid; it is an error iff the member is not a readable method or the call threw |
| EntangleServer.CallReplyMessages | src/server.ts:145-159 | a refused call reports `"<name>" is not a function`; a throwing one reports the error's message, `String(e)`, or "Unknown Error" |
| EntangleServer.Server.constructor | src/server.ts:21-73 | an empty client set; the enumerable keys are the given ones; the tables hold, for every listed key, the decision for it |
| EntangleServer.Server.Broadcast | src/server.ts:193 | every connected socket, and no other, gets the message appended; no message ever shows a closed key's value |
| EntangleServer.Server.Connect | src/server.ts:117-123 | the socket joins the clients and is sent exactly the initial sync of the target's enumerable keys, in `for...in` order; what it is sent shows no closed key |
| EntangleServer.Server.ProxySet | src/server.ts:176-196 | the target changes iff the write was accepted; a readable key is broadcast with the value held afterwards, even when refused |
| EntangleServer.Server.ProxyDelete | src/server.ts:197-213 | the key goes iff the delete was accepted; a readable key is broadcast as `set` with the value read afterwards and `func` false |
| EntangleServer.Server.HandleSet | src/server.ts:135-140 | a key passing the write check is written through the proxy (target, enumerable keys and broadcast as the `set` trap leaves them), and a refused write throws the strict-mode `TypeError`; any other key is answered to the sender alone with `set(key, undefined)` |
| EntangleServer.Server.HandleCall | src/server.ts:141-162 | only the caller gets the reply; the target is unchanged |
| EntangleServer.Server.Close | src/server.ts:166-168 | the socket leaves the client set and is sent nothing more |
| EntangleClient.SendKeepsRequest | src/client.ts:69-76 | a send throws iff there is no socket, changing nothing; otherwise the request is appended to the wire (open) or to the deferred sends (not open) |
| EntangleClient.DeferredDeliveredOnOpen | src/client.ts:69-76 | a request sent before the socket opens reaches the wire on open, after the earlier deferred ones |
| EntangleClient.Adaptor.constructor | src/client.ts:39-57 | `active` and `cached` default to true; a socket is built iff `active` |
| EntangleClient.Adaptor.Connect | src/client.ts:59-62 | sets `active`; builds a socket only when none exists, so repeated calls build at most one |
| EntangleClient.Adaptor.Disconnect | src/client.ts:64-67 | clears `active`; the socket, if any, stops being open |
| EntangleClient.Adaptor.OnDisconnect | src/client.ts:50-56 | the socket is dropped and rebuilt iff `active` |
| EntangleClient.Adaptor.OnOpen | src/node.ts:15 | only the socket becoming open: the socket is open and nothing else changes; the whole `connect` event (re-subscribing, then the deferred sends) is `EntangleClient.Client.OnConnect` |
| EntangleClient.Adaptor.Send | src/client.ts:69-76 | the new state and outcome are those of a send on the old state |
| EntangleClient.Adaptor.FlushDeferred | src/client.ts:72 | the deferred sends reach the wire in order and none remains deferred |
| EntangleClient.Apply | src/client.ts:171-199 | `D` deletes the key, `W` stores the value, `F` stores a stub for that key, `E`/`Y` add an event and leave the mirror |
| EntangleClient.ApplyIsLocal | src/client.ts:171-186 | a message changes no mirror key other than the one it names |
| EntangleClient.Client.constructor | src/client.ts:163-207 | no services and no outstanding calls |
| EntangleClient.Client.GetService | src/client.ts:209-213 | a service is returned iff subscribed |
| EntangleClient.Client.Send | src/client.ts:226-228 | the adaptor's send |
| EntangleClient.Client.Subscribe | src/client.ts:215-219 | a duplicate id throws "Service is already exists" and changes nothing; else a new empty service, last in the `Map`'s insertion order, with `S` sent only when the socket is open |
| EntangleClient.Client.Unsubscribe | src/client.ts:221-224 | the service is removed, from the map and its insertion order, even when sending `U` then throws |
| EntangleClient.Client.OnMessage | src/client.ts:167-200 | unknown service: nothing changes; `C` settles the matching outstanding call of that same service object; other letters apply to its mirror |
| EntangleClient.Client.OnConnect | src/client.ts:202-206 | the socket opens, one `S` per service reaches the wire in the `Map`'s insertion order, then every deferred send; services, calls and the service count are unchanged |
| EntangleClient.Client.CallFunction | src/client.ts:116-155 | on a service object constructed for that id, the call is outstanding once sent; a send that throws rejects it with that message and leaves no listener |
| EntangleClient.Client.Expire | src/client.ts:121-124 | an outstanding call is rejected with "Timeout"; a settled call is unaffected |
| EntangleClient.Client.SetProperty | src/client.ts:101-104 | sends `W` and leaves the mirror untouched |
| EntangleClient.Client.DeleteProperty | src/client.ts:105-108 | sends `D` and leaves the mirror untouched |
| LegacyAdaptor.AfterMessage | src/adaptor.ts:63-80 | a setter stores a stub (method) or the value, `undefined` included, under its key, leaving other keys; other messages change nothing |
| LegacyAdaptor.ReplayLastWrite | src/adaptor.ts:63-74 | after a stream of messages each key holds what its last setter said; unnamed keys keep their entry or stay absent |
| LegacyAdaptor.ReplayAfterOpen | src/adaptor.ts:59-74 | after reconnecting, exactly the keys named by the sync are present |
| LegacyAdaptor.Mirror.constructor | src/adaptor.ts:21-22 | the timeout defaults to 10000; nothing is mirrored or outstanding |
| LegacyAdaptor.Mirror.Get | src/adaptor.ts:85-90 | a key reads as its entry iff present |
| LegacyAdaptor.Mirror.Has | src/adaptor.ts:85-87 | the `has` trap answers whether `props` holds the key |
| LegacyAdaptor.Mirror.Send | src/adaptor.ts:82 | the injected send either accepts the request or throws, changing nothing else |
| LegacyAdaptor.Mirror.CallFunction | src/adaptor.ts:27-57 | the call is outstanding once sent; a throwing send rejects it with that error and removes the listener |
| LegacyAdaptor.Mirror.Expire | src/adaptor.ts:30-33 | an outstanding call is rejected with "Timeout" |
| LegacyAdaptor.Mirror.OnOpen | src/adaptor.ts:59-61 | every key is deleted and nothing is sent |
| LegacyAdaptor.Mirror.OnMessage | src/adaptor.ts:63-80 | setters update `props`; a return settles its still-outstanding call by its `error` field; `ready` is ignored |
| LegacyAdaptor.Mirror.Set | src/adaptor.ts:91-99 | the value is stored first; a function then throws "Cannot set a function attribute to this object."; other values are sent as a setter |
| LegacyAdaptor.Mirror.Delete | src/adaptor.ts:100-109 | a setter with `undefined` is sent first; the key is deleted only if that send did not throw |
| LegacyAdaptor.DefineProperty | src/adaptor.ts:110-112 | always throws "Cannot define property of this object" |
| LegacyAdaptor.GetOwnPropertyDescriptor | src/adaptor.ts:113-115 | always throws "Cannot get own property descriptor of this object" |
| Ids.EKey.Make | src/utils/id.ts:17-19 | the new key holds the list and is appended to the record |
| Ids.KeyList | src/utils/id.ts:3 | a single key becomes the one-element list; a list is used as given |
| Ids.EKeyRegistry.constructor | src/utils/id.ts:13 | the record starts empty |
| Ids.EKeyRegistry.Get | src/utils/id.ts:2-11 | a list already recorded (elementwise) returns that key and records nothing; else one fresh key is appended; recorded lists stay distinct |
| Ids.ToInt32 | src/utils/id.ts:49-50 | the signed 32-bit value congruent to the input modulo 2^32 |
| Ids.Pack | src/utils/id.ts:36-53 | an id is 8 bytes |
| Ids.TimestampOfPack | src/utils/id.ts:31-33 | the timestamp is the signed 32-bit second times 1000, i.e. second × 1000 before 2038 |
| Ids.Timestamp | src/utils/id.ts:31-33 | the timestamp is a whole number of seconds in milliseconds, within the signed 32-bit second range |
| Ids.RandomOfPack | src/utils/id.ts:50 | the last 4 bytes read back as the random draw |
| Ids.PackInjective | src/utils/id.ts:49-50 | two ids are equal iff their seconds agree modulo 2^32 and their draws are equal |
| Ids.IdGenerator.constructor | src/utils/id.ts:27 | no buckets |
| Ids.IdGenerator.Create | src/utils/id.ts:35-54 | every skipped draw collided in its second's bucket; the first fresh draw is packed and added to its bucket, which stays duplicate-free; with none, nothing changes |
| Ids.IdGenerator.Expire | src/utils/id.ts:44 | the second's bucket is dropped |
| Ids.UrlSafeEncode | src/utils/id.ts:64-65 | replacing `+` and `/` turns standard base64 into base64url |
| Ids.TrimBtoa | src/utils/id.ts:57-63 | trimming the padding of `btoa` gives unpadded base64 |
| Ids.EncodeShape | src/utils/id.ts:56-66 | the unpadded length is 4 per full group plus one more than the leftover bytes; it never ends in `=`; url output uses only `A-Z a-z 0-9 - _` |
| Ids.Btoa | src/utils/id.ts:56-61 | `btoa` of n bytes has 4 characters per started 3-byte group, padding included |
| Ids.ToString | src/utils/id.ts:55-66 | `toString` is the unpadded base64url encoding of the 8 bytes |
| Ids.ToStringShape | src/utils/id.ts:56-66 | an id prints as 11 url-safe characters |
| Ids.DecodeEncode | src/utils/id.ts:56-66 | decoding the base64url text gives back the bytes |
| Ids.ToStringInjective | src/utils/id.ts:56-66 | distinct ids print differently |

## Left out
- LegacyAdaptor.Mirror.Has: only the keys `props` itself holds are modelled. `props` is a plain object, so in the source `Reflect.has` also answers true for names inherited from `Object.prototype`, such as `toString`.
- LegacyAdaptor.Mirror.Get: only the keys `props` itself holds are modelled. In the source `Reflect.get` also returns inherited members, such as `Object.prototype.toString`.
- LegacyAdaptor.Mirror.Set: a write to `__proto__` (here and in `LegacyAdaptor.Mirror.OnMessage`) changes the prototype of `props` in the source and stores no key; the model stores it as an ordinary key.

- The codec (`Shuttle.serialize`/`parse`, its options and salts) is not part of this model. Messages travel as datatypes, and module Wire only models the object literals they are built from.
- The physical sockets, `Buffer`/`Uint8Array` conversion and the browser/node builders are left out. A socket is an open flag, and what it is sent is a sequence.
- Emitter listener order: the `connect` listeners are assumed to run in registration order. The client's re-subscribe listener runs before the deferred sends, because it is registered when the `Client` is built.
- EntangleServer.Server.HandleCall: the reply is appended at once. The `await` lets other messages interleave before it in the source. Side effects of the method on the target are not modelled.
- EntangleServer.MemberAt: only own properties are modelled. Inherited members such as `toString` are functions in the source and pass the `call` check.
- EntangleServer.Server.Connect: `for...in` also visits inherited enumerable keys; only own properties are modelled, so those are not synced.
- EntangleServer.Server.ProxySet: a new key is appended to the enumerable keys and becomes enumerable. JavaScript lists integer-like keys first, which is not modelled.
- EntangleServer.Server.ProxyDelete: a method key whose delete was refused is broadcast with value `undefined`. The source would try to send the function itself.
- The `get`/`has` traps of the server proxy and the `Handle` symbol are left out. They only forward to the target.
- Thrown exceptions from `client.send` inside the server's `forEach` broadcast are not modelled. The model treats every send as accepted by the socket.
- EntangleClient.Client.Subscribe: `Service` options are never passed, so every service uses the 10000 ms timeout. The timer itself is the `Expire` event.
- EntangleClient.Client.OnMessage: the listener's `Operation Error` branch is unreachable, because only `"C"` responses are emitted on `call:` events. It is left out.
- The `AsyncWrappedObject` proxies' `get` of a stub is the entry `Stub(name)`. Invoking it is `CallFunction`.
- Promise resolution is recorded as a `Settlement` in `settled`. The continuations themselves are not modelled.
- Ids.IdGenerator.Create: `Date.now()` and `Math.random()` are the supplied draws. An endless run of collisions is a `None` result on a finite list.
- KeyAlgebra: types are those of a `strictNullChecks` compilation. TypeScript's conditional-type distribution over unions, `any`, unions other than `X | undefined`, and `keyof` of non-string keys are not modelled.
- Numbers are integers, so floating-point values and `NaN` are not modelled. Symbols are not modelled either.
