/** The server of `src/server.ts`: the target object, the connected clients
    with what each has been sent, the `set`/`call` request handlers and the
    write/delete interception that broadcasts every change. */
module EntangleServer {
  import opened Wrappers
  import opened Wire
  import opened Permissions
  import opened Seqs

  /** A property of the target: data, or a method (identified opaquely). */
  datatype Member = Data(value: Value) | Method(id: nat)

  /** The identity of one accepted socket (its `Client` wrapper). */
  type ClientId = nat

  /** A thrown value: an `Error` instance, or any other value. */
  datatype ThrownValue = ErrorObject(message: string) | NonError(value: Value)

  /** How awaiting a server method ended. */
  datatype Invocation = Resolves(value: Value) | Throws(thrown: ThrownValue)

  /** `e instanceof Error ? e.message : String(e || "Unknown Error")` */
  function ErrorText(t: ThrownValue): (r: string)
    ensures t.ErrorObject? ==> r == t.message
    ensures t.NonError? && Truthy(t.value) ==> r == ToJsString(t.value)
    ensures t.NonError? && !Truthy(t.value) ==> r == "Unknown Error"
  {
    match t
    case ErrorObject(m) => m
    case NonError(v) => if Truthy(v) then ToJsString(v) else "Unknown Error"
  }

  /** `target[key]`: a missing property reads as `undefined`. */
  function MemberAt(target: map<Key, Member>, key: Key): (r: Member)
    ensures key in target ==> r == target[key]
    ensures key !in target ==> r == Data(Undefined)
  {
    if key in target then target[key] else Data(Undefined)
  }

  /** `isReadable` (line 30): a key missing from the table is readable. */
  function IsReadableIn(readables: map<Key, bool>, key: Key): (r: bool)
    ensures r <==> key !in readables || readables[key]
  {
    LookupOr(readables, key)
  }

  /** `isWritable` (line 31) looks up the `readables` table, as written. */
  function IsWritableIn(readables: map<Key, bool>, key: Key): (r: bool)
    ensures r == IsReadableIn(readables, key)
  {
    LookupOr(readables, key)
  }

  /** Because `isWritable` consults `readables`, the `writables` table never
      decides anything: on a client-read-only server, a selected key with no
      permission entry is decided unwritable yet passes the write check. */
  lemma ClientReadonlyNotEnforced(readables: map<Key, bool>, key: Key, opts: ServerOptions)
    requires key in readables && readables[key] == Decide(key, opts).readable
    requires opts.clientReadonly == Some(true)
    requires !(opts.omittedKeys.Some? && key in opts.omittedKeys.value)
    requires !(opts.pickedKeys.Some? && key !in opts.pickedKeys.value)
    requires opts.permissions.None? || forall p :: p in opts.permissions.value ==> p.key != key
    ensures !Decide(key, opts).writable
    ensures IsWritableIn(readables, key)
  {
    NoEntryIgnoresReadonlyKeys(key, opts);
  }

  /** A key outside the table's key list (one named only in `permissions`,
      or created after the server) has no entry, so it is open both ways,
      though the decision for it would close it under `pickedKeys` and make
      it unwritable under `clientReadonly`. */
  lemma UnlistedKeyOpen(readables: map<Key, bool>, ownNames: seq<Key>, key: Key, opts: ServerOptions)
    requires readables.Keys == set k | k in TableKeys(ownNames, opts)
    requires key !in ownNames && key !in opts.pickedKeys.GetOr([])
    requires key !in opts.omittedKeys.GetOr([]) && key !in opts.readonlyKeys.GetOr([])
    ensures IsReadableIn(readables, key) && IsWritableIn(readables, key)
    ensures opts.pickedKeys.Some? ==> Decide(key, opts) == Perm(false, false)
    ensures opts.clientReadonly == Some(true) ==> !Decide(key, opts).writable
  {
  }

  /** The `set` message announcing a member: a method is announced with
      `func` true and no value, never the function itself. */
  function SetterFor(key: Key, m: Member): ServerResponse {
    match m
    case Method(_) => ServerSetter(key, true, Undefined)
    case Data(v) => ServerSetter(key, false, v)
  }

  /** `Client.sync(key, clear)` (lines 86-114): the message it sends, if any. */
  function SyncMessage(target: map<Key, Member>, readables: map<Key, bool>, key: Key, clear: bool)
    : (r: Option<ServerResponse>)
    ensures r.None? <==> !IsWritableIn(readables, key) && !clear
    ensures IsWritableIn(readables, key) ==> r == Some(SetterFor(key, MemberAt(target, key)))
    ensures !IsWritableIn(readables, key) && clear ==> r == Some(ServerSetter(key, false, Undefined))
  {
    if !IsWritableIn(readables, key) then
      (if clear then Some(ServerSetter(key, false, Undefined)) else None)
    else Some(SetterFor(key, MemberAt(target, key)))
  }

  /** The messages `sync` sends for each of `keys` in turn, without `clear`. */
  function InitialSync(target: map<Key, Member>, readables: map<Key, bool>, keys: seq<Key>): (r: seq<ServerResponse>)
    ensures |r| <= |keys|
    decreases |keys|
  {
    if keys == [] then []
    else
      var last := keys[|keys| - 1];
      InitialSync(target, readables, keys[..|keys| - 1]) + SyncSent(target, readables, last)
  }

  /** What connect-time `sync(key)` sends: nothing, or the one message. */
  function SyncSent(target: map<Key, Member>, readables: map<Key, bool>, key: Key): (r: seq<ServerResponse>)
    ensures |r| <= 1
    ensures |r| == 1 <==> IsWritableIn(readables, key)
    ensures |r| == 1 ==> r[0] == SetterFor(key, MemberAt(target, key))
  {
    match SyncMessage(target, readables, key, false)
    case Some(m) => [m]
    case None => []
  }

  /** How many `set` messages in `msgs` name `key`. */
  function CountSetters(msgs: seq<ServerResponse>, key: Key): nat
    decreases |msgs|
  {
    if msgs == [] then 0
    else CountSetters(msgs[..|msgs| - 1], key) + (if msgs[|msgs| - 1].ServerSetter? && msgs[|msgs| - 1].key == key then 1 else 0)
  }

  lemma {:induction false} CountSettersAppend(a: seq<ServerResponse>, b: seq<ServerResponse>, key: Key)
    ensures CountSetters(a + b, key) == CountSetters(a, key) + CountSetters(b, key)
    decreases |b|
  {
    if b != [] {
      assert (a + b)[..|a + b| - 1] == a + b[..|b| - 1];
      CountSettersAppend(a, b[..|b| - 1], key);
    } else {
      assert a + b == a;
    }
  }

  /** `m` is the `set` announcing a key of `keys` that passes the write
      check, with its current member. */
  predicate AnnouncesListed(target: map<Key, Member>, readables: map<Key, bool>, keys: seq<Key>, m: ServerResponse) {
    && m.ServerSetter?
    && m.key in keys
    && IsWritableIn(readables, m.key)
    && m == SetterFor(m.key, MemberAt(target, m.key))
  }

  /** Every message of the initial sync is the `set` announcing a key of the
      list that passes the write check, with its current member. */
  lemma {:induction false} InitialSyncSetters(target: map<Key, Member>, readables: map<Key, bool>, keys: seq<Key>)
    ensures forall i :: 0 <= i < |InitialSync(target, readables, keys)| ==>
      AnnouncesListed(target, readables, keys, InitialSync(target, readables, keys)[i])
    decreases |keys|
  {
    if keys != [] {
      var p := keys[..|keys| - 1];
      var last := keys[|keys| - 1];
      InitialSyncSetters(target, readables, p);
      var head, tail := InitialSync(target, readables, p), SyncSent(target, readables, last);
      var msgs := InitialSync(target, readables, keys);
      assert msgs == head + tail;
      forall i | 0 <= i < |msgs|
        ensures AnnouncesListed(target, readables, keys, msgs[i])
      {
        if i < |head| {
          assert AnnouncesListed(target, readables, p, head[i]);
          assert head[i].key in p;
          assert msgs[i] == head[i];
        } else {
          assert |tail| == 1;
          assert msgs[i] == tail[0];
          assert last in keys;
        }
      }
    }
  }

  /** The `set` messages for `k` that the sync of one key adds: one when it
      is `k` and passes the write check, none otherwise. */
  lemma SyncSentCount(target: map<Key, Member>, readables: map<Key, bool>, key: Key, k: Key)
    ensures CountSetters(SyncSent(target, readables, key), k) == if IsWritableIn(readables, key) && k == key then 1 else 0
  {
    var tail := SyncSent(target, readables, key);
    if tail != [] {
      assert tail[..0] == [];
    }
  }

  /** The initial sync announces no key outside the list. */
  lemma {:induction false} InitialSyncAbsent(target: map<Key, Member>, readables: map<Key, bool>, keys: seq<Key>, k: Key)
    requires k !in keys
    ensures CountSetters(InitialSync(target, readables, keys), k) == 0
    decreases |keys|
  {
    if keys != [] {
      var p := keys[..|keys| - 1];
      var last := keys[|keys| - 1];
      assert k !in p && k != last;
      InitialSyncAbsent(target, readables, p, k);
      SyncSentCount(target, readables, last, k);
      CountSettersAppend(InitialSync(target, readables, p), SyncSent(target, readables, last), k);
    }
  }

  /** Syncing one more key adds its `set` to the count of that key only. */
  lemma InitialSyncStep(target: map<Key, Member>, readables: map<Key, bool>, keys: seq<Key>, k: Key)
    requires keys != []
    ensures CountSetters(InitialSync(target, readables, keys), k)
         == CountSetters(InitialSync(target, readables, keys[..|keys| - 1]), k)
            + if IsWritableIn(readables, keys[|keys| - 1]) && k == keys[|keys| - 1] then 1 else 0
  {
    var p, last := keys[..|keys| - 1], keys[|keys| - 1];
    SyncSentCount(target, readables, last, k);
    CountSettersAppend(InitialSync(target, readables, p), SyncSent(target, readables, last), k);
  }

  /** Each key of a duplicate-free list that passes the write check is
      announced exactly once by the initial sync; the others never. */
  lemma {:induction false} InitialSyncCounts(target: map<Key, Member>, readables: map<Key, bool>, keys: seq<Key>, k: Key)
    requires NoDuplicates(keys) && k in keys
    ensures CountSetters(InitialSync(target, readables, keys), k) == if IsWritableIn(readables, k) then 1 else 0
    decreases |keys|
  {
    var p := keys[..|keys| - 1];
    InitialSyncStep(target, readables, keys, k);
    SplitLast(keys);
    if k != keys[|keys| - 1] {
      InitialSyncCounts(target, readables, p, k);
    } else {
      InitialSyncAbsent(target, readables, p, k);
    }
  }

  /** On connect, every message is the `set` announcing a key of the list
      that passes the write check, with its current member, and each such key
      of the list is announced exactly once (the others never). */
  lemma InitialSyncSpec(target: map<Key, Member>, readables: map<Key, bool>, keys: seq<Key>)
    requires NoDuplicates(keys)
    ensures var msgs := InitialSync(target, readables, keys);
      && (forall i :: 0 <= i < |msgs| ==>
            && msgs[i].ServerSetter?
            && msgs[i].key in keys
            && IsWritableIn(readables, msgs[i].key)
            && msgs[i] == SetterFor(msgs[i].key, MemberAt(target, msgs[i].key)))
      && (forall k :: k in keys ==> CountSetters(msgs, k) == if IsWritableIn(readables, k) then 1 else 0)
  {
    InitialSyncSetters(target, readables, keys);
    forall k | k in keys
      ensures CountSetters(InitialSync(target, readables, keys), k) == if IsWritableIn(readables, k) then 1 else 0
    {
      InitialSyncCounts(target, readables, keys, k);
    }
  }

  /** The `return` message for a `call` request (lines 141-161): an error
      `"<name>" is not a function` when the member is not a readable method,
      otherwise the awaited value or the thrown error's text. */
  function CallReply(target: map<Key, Member>, readables: map<Key, bool>, uuid: string, name: Key,
                     invocation: Invocation): (r: ServerResponse)
    ensures r.ServerReturn? && r.ret.uuid == uuid
    ensures r.ret.ReturnError? <==>
      !MemberAt(target, name).Method? || !IsReadableIn(readables, name) || invocation.Throws?
  {
    if !MemberAt(target, name).Method? || !IsReadableIn(readables, name) then
      ServerReturn(ReturnError(uuid, "\"" + name + "\" is not a function"))
    else
      match invocation
      case Resolves(v) => ServerReturn(ReturnValue(uuid, v))
      case Throws(t) => ServerReturn(ReturnError(uuid, ErrorText(t)))
  }

  /** A refused call names the member in its message, and a failing call
      carries the thrown error's message (or the fallback text). */
  lemma CallReplyMessages(target: map<Key, Member>, readables: map<Key, bool>, uuid: string, name: Key,
                          invocation: Invocation)
    ensures var r := CallReply(target, readables, uuid, name, invocation);
      && (!MemberAt(target, name).Method? || !IsReadableIn(readables, name) ==>
            r.ret.message == "\"" + name + "\" is not a function")
      && (MemberAt(target, name).Method? && IsReadableIn(readables, name) && invocation.Throws? ==>
            r.ret.message == ErrorText(invocation.thrown))
  {
  }

  /** A message discloses nothing of a closed key: any `set` for an
      unreadable key carries no value and no method flag. */
  predicate DisclosesNothingClosed(readables: map<Key, bool>, m: ServerResponse) {
    m.ServerSetter? && !IsReadableIn(readables, m.key) ==> m == ServerSetter(m.key, false, Undefined)
  }

  /** Every connected client's outbox gets `msg`; closed ones are untouched. */
  function Broadcasted(outbox: map<ClientId, seq<ServerResponse>>, clients: set<ClientId>, msg: ServerResponse)
    : (r: map<ClientId, seq<ServerResponse>>)
    ensures r.Keys == outbox.Keys
  {
    map c | c in outbox :: if c in clients then outbox[c] + [msg] else outbox[c]
  }

  /** Adding one more recipient to a broadcast appends the message to its outbox. */
  lemma BroadcastedStep(outbox: map<ClientId, seq<ServerResponse>>, done: set<ClientId>, c: ClientId, msg: ServerResponse)
    requires c in outbox && c !in done
    ensures Broadcasted(outbox, done + {c}, msg)
         == Broadcasted(outbox, done, msg)[c := Broadcasted(outbox, done, msg)[c] + [msg]]
  {
  }

  /** A broadcast of a message that discloses nothing of a closed key keeps
      every outbox free of such disclosures. */
  lemma BroadcastedDisclosesNothing(readables: map<Key, bool>, outbox: map<ClientId, seq<ServerResponse>>,
                                    clients: set<ClientId>, msg: ServerResponse)
    requires forall c, i :: c in outbox && 0 <= i < |outbox[c]| ==> DisclosesNothingClosed(readables, outbox[c][i])
    requires DisclosesNothingClosed(readables, msg)
    ensures var r := Broadcasted(outbox, clients, msg);
      forall c, i :: c in r && 0 <= i < |r[c]| ==> DisclosesNothingClosed(readables, r[c][i])
  {
    var r := Broadcasted(outbox, clients, msg);
    forall c, i | c in r && 0 <= i < |r[c]|
      ensures DisclosesNothingClosed(readables, r[c][i])
    {
      if c in clients && i == |outbox[c]| {
        assert r[c][i] == msg;
      } else {
        assert r[c][i] == outbox[c][i];
      }
    }
  }

  /** The initial sync discloses nothing of a closed key: it announces only
      keys that pass the write check, which is the read check. */
  lemma InitialSyncDisclosesNothing(target: map<Key, Member>, readables: map<Key, bool>, keys: seq<Key>)
    ensures var msgs := InitialSync(target, readables, keys);
      forall i :: 0 <= i < |msgs| ==> DisclosesNothingClosed(readables, msgs[i])
  {
    InitialSyncSetters(target, readables, keys);
  }

  /** The object returned by `createEntangleServer`: the target reached
      through its proxy, plus the per-socket bookkeeping. */
  class Server {
    /** The target's own properties; `enumerable` lists the keys `for...in`
        visits, in order. */
    var target: map<Key, Member>
    var enumerable: seq<Key>
    /** The permission tables, fixed at creation. */
    const readables: map<Key, bool>
    const writables: map<Key, bool>
    /** The connected clients, and everything each accepted socket was sent. */
    var clients: set<ClientId>
    var outbox: map<ClientId, seq<ServerResponse>>

    ghost predicate Valid()
      reads this
    {
      && NoDuplicates(enumerable)
      && (forall k :: k in enumerable ==> k in target)
      && clients <= outbox.Keys
      && (forall c, i :: c in outbox && 0 <= i < |outbox[c]| ==> DisclosesNothingClosed(readables, outbox[c][i]))
    }

    /** `createEntangleServer(target, options)`; `ownNames` is
        `Object.getOwnPropertyNames(target)` and `enumerableKeys` the keys
        that `for...in` visits, a part of them. */
    constructor (target: map<Key, Member>, ownNames: seq<Key>, enumerableKeys: seq<Key>, opts: ServerOptions)
      requires NoDuplicates(ownNames) && forall k :: k in ownNames <==> k in target
      requires NoDuplicates(enumerableKeys) && forall k :: k in enumerableKeys ==> k in target
      ensures Valid()
      ensures this.target == target && enumerable == enumerableKeys && clients == {} && outbox == map[]
      ensures readables.Keys == writables.Keys == set k | k in TableKeys(ownNames, opts)
      ensures forall k :: k in readables ==> readables[k] == Decide(k, opts).readable
      ensures forall k :: k in writables ==> writables[k] == Decide(k, opts).writable
    {
      var r, w := BuildTables(TableKeys(ownNames, opts), opts);
      this.target := target;
      enumerable := enumerableKeys;
      readables, writables := r, w;
      clients, outbox := {}, map[];
    }

    function IsReadable(key: Key): bool {
      IsReadableIn(readables, key)
    }

    function IsWritable(key: Key): bool {
      IsWritableIn(readables, key)
    }

    /** `clients.forEach((c) => c.send(pack))` */
    method Broadcast(msg: ServerResponse)
      requires Valid() && DisclosesNothingClosed(readables, msg)
      modifies this
      ensures Valid()
      ensures outbox == Broadcasted(old(outbox), clients, msg)
      ensures target == old(target) && enumerable == old(enumerable) && clients == old(clients)
    {
      var remaining := clients;
      assert clients - remaining == {};
      assert Broadcasted(outbox, {}, msg) == outbox;
      while remaining != {}
        invariant remaining <= clients
        invariant outbox == Broadcasted(old(outbox), clients - remaining, msg)
        invariant target == old(target) && enumerable == old(enumerable) && clients == old(clients)
        decreases remaining
      {
        var c :| c in remaining;
        BroadcastedStep(old(outbox), clients - remaining, c, msg);
        assert (clients - remaining) + {c} == clients - (remaining - {c});
        outbox := outbox[c := outbox[c] + [msg]];
        remaining := remaining - {c};
      }
      BroadcastedDisclosesNothing(readables, old(outbox), clients, msg);
    }

    /** `handleSocket(soc)` up to the listeners: the client joins the set and
        is sent one `set` per enumerable key that passes `isWritable`. */
    method Connect(c: ClientId)
      requires Valid() && c !in outbox
      modifies this
      ensures Valid()
      ensures clients == old(clients) + {c}
      ensures outbox == old(outbox)[c := InitialSync(target, readables, enumerable)]
      ensures target == old(target) && enumerable == old(enumerable)
    {
      // `sync` sends as it goes; nothing else runs in between, so the
      // messages are collected and then appended to the socket's outbox.
      var sent: seq<ServerResponse> := [];
      for i := 0 to |enumerable|
        invariant sent == InitialSync(target, readables, enumerable[..i])
      {
        assert enumerable[..i + 1][..i] == enumerable[..i];
        sent := sent + SyncSent(target, readables, enumerable[i]);
      }
      assert enumerable[..|enumerable|] == enumerable;
      clients := clients + {c};
      outbox := outbox[c := sent];
      InitialSyncDisclosesNothing(target, readables, enumerable);
    }

    /** The proxy's `set` trap (lines 176-196); `accepted` is what
        `Reflect.set` reports. The broadcast runs in `finally`, so it happens
        for a readable key even when the write was refused, and it carries
        the value the target holds afterwards. */
    method ProxySet(key: Key, m: Member, accepted: bool) returns (ok: bool)
      requires Valid()
      modifies this
      ensures Valid()
      ensures ok == accepted
      ensures target == if accepted then old(target)[key := m] else old(target)
      ensures enumerable == if accepted && key !in old(target) then old(enumerable) + [key] else old(enumerable)
      ensures clients == old(clients)
      ensures outbox == if IsReadable(key) then Broadcasted(old(outbox), clients, SetterFor(key, MemberAt(target, key)))
                        else old(outbox)
    {
      if accepted {
        if key !in target {
          enumerable := enumerable + [key];
        }
        target := target[key := m];
      }
      ok := accepted;
      if IsReadable(key) {
        Broadcast(SetterFor(key, MemberAt(target, key)));
      }
    }

    /** The proxy's `deleteProperty` trap (lines 197-212); `accepted` is what
        `Reflect.deleteProperty` reports. The broadcast carries the value read
        after the delete, with `func` false. */
    method ProxyDelete(key: Key, accepted: bool) returns (ok: bool)
      requires Valid()
      modifies this
      ensures Valid()
      ensures ok == accepted
      ensures target == if accepted then old(target) - {key} else old(target)
      ensures enumerable == if accepted then Without(old(enumerable), key) else old(enumerable)
      ensures clients == old(clients)
      ensures outbox == if IsReadable(key) then Broadcasted(old(outbox), clients, ServerSetter(key, false, DataValue(MemberAt(target, key))))
                        else old(outbox)
      ensures accepted && IsReadable(key) ==>
        outbox == Broadcasted(old(outbox), clients, ServerSetter(key, false, Undefined))
    {
      if accepted {
        target := target - {key};
        enumerable := Without(enumerable, key);
      }
      ok := accepted;
      if IsReadable(key) {
        Broadcast(ServerSetter(key, false, DataValue(MemberAt(target, key))));
      }
    }

    /** A `set` request from client `c` (lines 135-139): a writable key is
        written through the proxy; any other key is answered, to the sender
        only, with `set(key, undefined, func=false)`. The module is strict
        code, so when the trap reports a refused write the assignment throws
        a `TypeError`, which ends the `message` listener. */
    method HandleSet(c: ClientId, key: Key, value: Value, accepted: bool) returns (result: Outcome)
      requires Valid() && c in clients
      modifies this
      ensures Valid()
      ensures clients == old(clients)
      ensures result.Thrown? <==> IsWritable(key) && !accepted
      ensures result.Thrown? ==> result.message == RefusedSetMessage(key)
      ensures IsWritable(key) ==>
        && target == (if accepted then old(target)[key := Data(value)] else old(target))
        && enumerable == (if accepted && key !in old(target) then old(enumerable) + [key] else old(enumerable))
        && outbox == Broadcasted(old(outbox), clients, SetterFor(key, MemberAt(target, key)))
      ensures !IsWritable(key) ==>
        && target == old(target) && enumerable == old(enumerable)
        && outbox == old(outbox)[c := old(outbox)[c] + [ServerSetter(key, false, Undefined)]]
    {
      if IsWritable(key) {
        var ok := ProxySet(key, Data(value), accepted);
        result := if ok then Ok else Thrown(RefusedSetMessage(key));
      } else {
        var m := SyncMessage(target, readables, key, true);
        outbox := outbox[c := outbox[c] + [m.value]];
        result := Ok;
      }
    }

    /** A `call` request from client `c` (lines 141-161); `invocation` is how
        awaiting the method ended. Only the sender gets the reply. */
    method HandleCall(c: ClientId, uuid: string, name: Key, invocation: Invocation)
      requires Valid() && c in clients
      modifies this
      ensures Valid()
      ensures target == old(target) && enumerable == old(enumerable) && clients == old(clients)
      ensures outbox == old(outbox)[c := old(outbox)[c] + [CallReply(target, readables, uuid, name, invocation)]]
    {
      outbox := outbox[c := outbox[c] + [CallReply(target, readables, uuid, name, invocation)]];
    }

    /** The socket's `close` listener: the client leaves the set. */
    method Close(c: ClientId)
      requires Valid()
      modifies this
      ensures Valid()
      ensures clients == old(clients) - {c}
      ensures target == old(target) && enumerable == old(enumerable) && outbox == old(outbox)
    {
      clients := clients - {c};
    }
  }

  /** The text of the `TypeError` a strict-mode assignment throws when the
      proxy's `set` trap returns false (as V8 words it). */
  function RefusedSetMessage(key: Key): string {
    "'set' on proxy: trap returned falsish for property '" + key + "'"
  }

  /** A plain value as read by `Reflect.get`; a method reads as no value here. */
  function DataValue(m: Member): Value {
    match m
    case Data(v) => v
    case Method(_) => Undefined
  }
}
