/** The object-mirror adaptor of `src/adaptor.ts`: a local `props` object kept
    in step with the server's `set` messages, calls correlated by uuid, and
    the traps of the proxy handed to the application. This side speaks the
    `op`-based protocol of module Wire. */
module LegacyAdaptor {
  import opened Wrappers
  import opened Wire

  /** What a `props` key holds: a plain value, a call stub standing for the
      server method of that name, or a function the application assigned
      (identified by `fn`). */
  datatype Prop = PValue(value: Value) | PStub(name: string) | PFunction(fn: nat)

  /** What the application assigns through the proxy. */
  datatype Assigned = AssignValue(value: Value) | AssignFunction(fn: nat)

  const DefaultTimeout: nat := 10000
  const TimeoutMessage: string := "Timeout"
  const FunctionAssignment: string := "Cannot set a function attribute to this object."
  const DefineRefused: string := "Cannot define property of this object"
  const DescriptorRefused: string := "Cannot get own property descriptor of this object"

  /** What one server message does to `props`: a setter stores a stub (for a
      method) or the value, `undefined` included; other messages leave it. */
  function AfterMessage(props: map<string, Prop>, res: ServerResponse): (r: map<string, Prop>)
    ensures res.ServerSetter? ==> res.key in r && r.Keys == props.Keys + {res.key}
    ensures res.ServerSetter? && res.func ==> r[res.key] == PStub(res.key)
    ensures res.ServerSetter? && !res.func ==> r[res.key] == PValue(res.value)
    ensures forall k :: k in props && (!res.ServerSetter? || k != res.key) ==> k in r && r[k] == props[k]
    ensures !res.ServerSetter? ==> r == props
  {
    match res
    case ServerSetter(key, func, value) =>
      props[key := if func then PStub(key) else PValue(value)]
    case _ => props
  }

  /** The messages of `msgs` applied in order. */
  function Replay(props: map<string, Prop>, msgs: seq<ServerResponse>): (r: map<string, Prop>)
    decreases |msgs|
  {
    if msgs == [] then props
    else AfterMessage(Replay(props, msgs[..|msgs| - 1]), msgs[|msgs| - 1])
  }

  /** The entry the last setter for `k` in `msgs` stores, if any. */
  function LastWrite(msgs: seq<ServerResponse>, k: string): Option<Prop>
    decreases |msgs|
  {
    if msgs == [] then None
    else
      var m := msgs[|msgs| - 1];
      if m.ServerSetter? && m.key == k then Some(if m.func then PStub(k) else PValue(m.value))
      else LastWrite(msgs[..|msgs| - 1], k)
  }

  /** After a stream of messages every key holds what its last setter said,
      and a key no setter named keeps its earlier entry or stays absent: the
      last write wins, key by key. */
  lemma {:induction false} ReplayLastWrite(props: map<string, Prop>, msgs: seq<ServerResponse>, k: string)
    ensures LastWrite(msgs, k).Some? ==>
      k in Replay(props, msgs) && Replay(props, msgs)[k] == LastWrite(msgs, k).value
    ensures LastWrite(msgs, k).None? ==>
      (k in Replay(props, msgs) <==> k in props) && (k in props ==> Replay(props, msgs)[k] == props[k])
    decreases |msgs|
  {
    if msgs != [] {
      ReplayLastWrite(props, msgs[..|msgs| - 1], k);
    }
  }

  /** A fresh connection clears `props` before the server's initial sync, so
      afterwards exactly the keys the sync named are present. */
  lemma ReplayAfterOpen(msgs: seq<ServerResponse>, k: string)
    ensures k in Replay(map[], msgs) <==> LastWrite(msgs, k).Some?
  {
    ReplayLastWrite(map[], msgs, k);
  }

  /** The state behind one `createClientAdaptor(...)` proxy. */
  class Mirror {
    var props: map<string, Prop>
    /** The uuids of calls whose listener is registered. */
    var pending: set<string>
    /** How each settled call settled. */
    var settled: map<string, Settlement>
    /** Every request the injected `send` accepted, in order. */
    var sent: seq<ClientRequest>
    const timeout: nat

    ghost predicate Valid()
      reads this
    {
      pending !! settled.Keys
    }

    /** `createClientAdaptor(Adaptor, options)`: the timeout defaults to
        10000 ms. */
    constructor (timeout: Option<nat>)
      ensures Valid()
      ensures this.timeout == timeout.GetOr(DefaultTimeout)
      ensures props == map[] && pending == {} && settled == map[] && sent == []
    {
      this.timeout := timeout.GetOr(DefaultTimeout);
      props, pending, settled, sent := map[], {}, map[], [];
    }

    /** The `has` trap. */
    predicate Has(key: string): (r: bool)
      reads this
      ensures r <==> key in props
    {
      key in props
    }

    /** The `get` trap; an absent key reads as `undefined`. */
    function Get(key: string): (r: Option<Prop>)
      reads this
      ensures r.Some? <==> Has(key)
      ensures r.Some? ==> r.value == props[key]
    {
      if key in props then Some(props[key]) else None
    }

    /** The injected `send`: `failure` is the error it throws, if any. */
    method Send(r: ClientRequest, failure: Option<string>) returns (out: Outcome)
      modifies this
      ensures failure.None? ==> out == Ok && sent == old(sent) + [r]
      ensures failure.Some? ==> out == Thrown(failure.value) && sent == old(sent)
      ensures props == old(props) && pending == old(pending) && settled == old(settled)
    {
      if failure.Some? {
        out := Thrown(failure.value);
      } else {
        sent := sent + [r];
        out := Ok;
      }
    }

    /** `callFunction(name, args)` with the uuid `uuid` the runtime drew: the
        listener is registered, then the call is sent; a send that throws
        rejects the call with its error and removes the listener. */
    method CallFunction(name: string, args: seq<Value>, uuid: string, failure: Option<string>)
      requires Valid() && uuid !in pending && uuid !in settled
      modifies this
      ensures Valid()
      ensures props == old(props)
      ensures failure.None? ==>
        && sent == old(sent) + [ClientCall(uuid, name, args)]
        && pending == old(pending) + {uuid} && settled == old(settled)
      ensures failure.Some? ==>
        && sent == old(sent)
        && pending == old(pending) && settled == old(settled)[uuid := Rejected(failure.value)]
    {
      pending := pending + {uuid};
      var out := Send(ClientCall(uuid, name, args), failure);
      if out.Thrown? {
        settled := settled[uuid := Rejected(out.message)];
        pending := pending - {uuid};
      }
    }

    /** The call's timer firing: an outstanding call is rejected with
        "Timeout"; a settled call's timer was cleared. */
    method Expire(uuid: string)
      requires Valid()
      modifies this
      ensures Valid()
      ensures props == old(props) && sent == old(sent)
      ensures uuid in old(pending) ==>
        pending == old(pending) - {uuid} && settled == old(settled)[uuid := Rejected(TimeoutMessage)]
      ensures uuid !in old(pending) ==> pending == old(pending) && settled == old(settled)
    {
      if uuid in pending {
        pending := pending - {uuid};
        settled := settled[uuid := Rejected(TimeoutMessage)];
      }
    }

    /** `onopen`: every key of `props` is deleted, one at a time, without
        telling the server. */
    method OnOpen()
      modifies this
      ensures props == map[]
      ensures pending == old(pending) && settled == old(settled) && sent == old(sent)
    {
      while props != map[]
        invariant pending == old(pending) && settled == old(settled) && sent == old(sent)
        decreases |props.Keys|
      {
        var key :| key in props;
        ghost var before := props.Keys;
        props := props - {key};
        assert props.Keys < before;
      }
    }

    /** `onmessage`: a setter updates `props`; a return settles the call with
        that uuid when its listener is still registered; `ready` is ignored. */
    method OnMessage(res: ServerResponse)
      requires Valid()
      modifies this
      ensures Valid()
      ensures props == AfterMessage(old(props), res) && sent == old(sent)
      ensures res.ServerReturn? && res.ret.uuid in old(pending) ==>
        pending == old(pending) - {res.ret.uuid} && settled == old(settled)[res.ret.uuid := res.ret.Settle()]
      ensures !(res.ServerReturn? && res.ret.uuid in old(pending)) ==>
        pending == old(pending) && settled == old(settled)
    {
      match res
      case ServerSetter(key, func, value) =>
        props := AfterMessage(props, res);
      case ServerReturn(ret) =>
        if ret.uuid in pending {
          pending := pending - {ret.uuid};
          settled := settled[ret.uuid := ret.Settle()];
        }
      case ServerReady =>
    }

    /** The `set` trap: the assignment is stored first; a function then
        throws, and any other value is sent as a setter (whose failure
        propagates with the value already stored). */
    method Set(key: string, v: Assigned, failure: Option<string>) returns (out: Outcome)
      modifies this
      ensures props == old(props)[key := match v
        case AssignValue(x) => PValue(x)
        case AssignFunction(f) => PFunction(f)]
      ensures pending == old(pending) && settled == old(settled)
      ensures v.AssignFunction? ==> out == Thrown(FunctionAssignment) && sent == old(sent)
      ensures v.AssignValue? && failure.None? ==>
        out == Ok && sent == old(sent) + [ClientSetter(key, v.value)]
      ensures v.AssignValue? && failure.Some? ==>
        out == Thrown(failure.value) && sent == old(sent)
    {
      match v
      case AssignFunction(f) =>
        props := props[key := PFunction(f)];
        out := Thrown(FunctionAssignment);
      case AssignValue(x) =>
        props := props[key := PValue(x)];
        out := Send(ClientSetter(key, x), failure);
    }

    /** The `deleteProperty` trap: a setter with `undefined` is sent first,
        and the key is deleted only when that send did not throw. */
    method Delete(key: string, failure: Option<string>) returns (out: Outcome)
      modifies this
      ensures pending == old(pending) && settled == old(settled)
      ensures failure.None? ==>
        && out == Ok && props == old(props) - {key}
        && sent == old(sent) + [ClientSetter(key, Undefined)]
      ensures failure.Some? ==>
        out == Thrown(failure.value) && props == old(props) && sent == old(sent)
    {
      out := Send(ClientSetter(key, Undefined), failure);
      if out.Ok? {
        props := props - {key};
      }
    }
  }

  /** The `defineProperty` trap always throws, whatever is defined. */
  function DefineProperty(key: string): (out: Outcome)
    ensures out == Thrown(DefineRefused)
  {
    Thrown(DefineRefused)
  }

  /** The `getOwnPropertyDescriptor` trap always throws. */
  function GetOwnPropertyDescriptor(key: string): (out: Outcome)
    ensures out == Thrown(DescriptorRefused)
  {
    Thrown(DescriptorRefused)
  }
}
