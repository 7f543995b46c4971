/** The client of `src/client.ts`: the `EntangleAdaptor` socket state machine,
    and the `Client` with its services, their mirrors and the pending calls.
    This side speaks the letter-coded protocol (`o: "W"`, `"S"`, ...). */
module EntangleClient {
  import opened Wrappers
  import opened Wire
  import opened Seqs

  type ServiceId = string
  type CallId = string

  /** A request, by its `o` letter. */
  datatype Request =
    | WriteRequest(s: ServiceId, k: string, v: Value)               // "W"
    | DeleteRequest(s: ServiceId, k: string)                        // "D"
    | SubscribeRequest(s: ServiceId)                                // "S"
    | UnsubscribeRequest(s: ServiceId)                              // "U"
    | CallRequest(s: ServiceId, i: CallId, k: string, a: seq<Value>) // "C"

  /** A response, by its `o` letter. A `"C"` response rejects with `e` when
      it carries one and otherwise fulfils with `v`. */
  datatype Response =
    | DeleteResponse(s: ServiceId, k: string)                       // "D"
    | WriteResponse(s: ServiceId, k: string, v: Value)              // "W"
    | FunctionResponse(s: ServiceId, k: string)                     // "F"
    | CallResponse(s: ServiceId, i: CallId, result: Settlement)     // "C"
    | ErrorResponse(s: ServiceId, m: string)                        // "E"
    | ReadyResponse(s: ServiceId)                                   // "Y"

  const NoConnection: string := "No websocket connection available"
  const AlreadySubscribed: string := "Service is already exists"
  const TimeoutMessage: string := "Timeout"

  // ---------------------------------------------------------------------------
  // EntangleAdaptor
  // ---------------------------------------------------------------------------

  /** The socket handle; only whether it is open matters here. */
  datatype Socket = Socket(open: bool)

  /** What sending depends on and changes: the socket, the sends waiting for
      the next `connect` event, and the requests written to an open socket. */
  datatype AdaptorView = AdaptorView(socket: Option<Socket>, deferred: seq<Request>, wire: seq<Request>)

  /** `EntangleAdaptor.send` (lines 69-76). */
  function AfterSend(v: AdaptorView, r: Request): (AdaptorView, Outcome) {
    match v.socket
    case None => (v, Thrown(NoConnection))
    case Some(Socket(true)) => (v.(wire := v.wire + [r]), Ok)
    case Some(Socket(false)) => (v.(deferred := v.deferred + [r]), Ok)
  }

  /** The `once("connect")` listeners re-running `send` on the open socket. */
  function AfterFlush(v: AdaptorView): AdaptorView {
    v.(deferred := [], wire := v.wire + v.deferred)
  }

  /** A send either throws and changes nothing, or keeps the request, in
      order, on the wire (open socket) or among the deferred sends. */
  lemma SendKeepsRequest(v: AdaptorView, r: Request)
    ensures var (w, out) := AfterSend(v, r);
      && (out.Thrown? <==> v.socket.None?)
      && (out.Thrown? ==> w == v && out.message == NoConnection)
      && (out.Ok? ==> w.socket == v.socket)
      && (out.Ok? && v.socket.value.open ==> w.wire == v.wire + [r] && w.deferred == v.deferred)
      && (out.Ok? && !v.socket.value.open ==> w.wire == v.wire && w.deferred == v.deferred + [r])
  {
  }

  /** A request sent while the socket is not yet open reaches the wire, after
      everything deferred before it, when the socket opens. */
  lemma DeferredDeliveredOnOpen(v: AdaptorView, r: Request)
    requires v.socket == Some(Socket(false))
    ensures AfterFlush(AfterSend(v, r).0.(socket := Some(Socket(true)))).wire == v.wire + v.deferred + [r]
  {
  }

  /** `EntangleAdaptor`: `active` asks for automatic reconnection; `cached`
      is stored and never read. */
  class Adaptor {
    var socket: Option<Socket>
    var active: bool
    const cached: bool
    /** The sends waiting for the next `connect` event, in registration order. */
    var deferred: seq<Request>
    /** Everything written to an open socket, in order. */
    var wire: seq<Request>
    /** How many sockets the builder has made. */
    ghost var builds: nat

    function View(): AdaptorView
      reads this
    {
      AdaptorView(socket, deferred, wire)
    }

    /** `new EntangleAdaptor(builder, options)`: both flags default to true,
        and a socket is built exactly when `active`. */
    constructor (active: Option<bool>, cached: Option<bool>)
      ensures this.active == active.GetOr(true) && this.cached == cached.GetOr(true)
      ensures socket == (if this.active then Some(Socket(false)) else None)
      ensures builds == (if this.active then 1 else 0)
      ensures deferred == [] && wire == []
    {
      this.active := active.GetOr(true);
      this.cached := cached.GetOr(true);
      deferred, wire := [], [];
      new;
      if this.active {
        socket := Some(Socket(false));
        builds := 1;
      } else {
        socket := None;
        builds := 0;
      }
    }

    /** `connect()`: sets `active` and builds a socket only when none exists. */
    method Connect()
      modifies this
      ensures active
      ensures socket == if old(socket).None? then Some(Socket(false)) else old(socket)
      ensures builds == old(builds) + (if old(socket).None? then 1 else 0)
      ensures deferred == old(deferred) && wire == old(wire)
    {
      active := true;
      if socket.None? {
        socket := Some(Socket(false));
        builds := builds + 1;
      }
    }

    /** `disconnect()`: clears `active` and closes the socket, which stops
        being open; the transport later reports the `disconnect` event. */
    method Disconnect()
      modifies this
      ensures !active
      ensures socket == if old(socket).None? then None else Some(Socket(false))
      ensures builds == old(builds) && deferred == old(deferred) && wire == old(wire)
    {
      active := false;
      if socket.Some? {
        socket := Some(Socket(false));
      }
    }

    /** The `disconnect` event (lines 50-56): the socket is dropped and, iff
        `active`, a new one is built. */
    method OnDisconnect()
      modifies this
      ensures active == old(active)
      ensures socket == if active then Some(Socket(false)) else None
      ensures builds == old(builds) + (if active then 1 else 0)
      ensures deferred == old(deferred) && wire == old(wire)
    {
      socket := None;
      if active {
        Connect();
      }
    }

    /** The socket's `open` event, which the builder turns into `connect`. */
    method OnOpen()
      requires socket.Some?
      modifies this
      ensures socket == Some(Socket(true))
      ensures active == old(active) && builds == old(builds) && deferred == old(deferred) && wire == old(wire)
    {
      socket := Some(Socket(true));
    }

    /** `send(data)`: throws without a socket, defers until the next `connect`
        while the socket is not open, writes otherwise. */
    method Send(r: Request) returns (out: Outcome)
      modifies this
      ensures (View(), out) == AfterSend(old(View()), r)
      ensures active == old(active) && builds == old(builds)
    {
      match socket
      case None =>
        out := Thrown(NoConnection);
      case Some(s) =>
        if s.open {
          wire := wire + [r];
        } else {
          deferred := deferred + [r];
        }
        out := Ok;
    }

    /** The deferred `send` listeners firing on the `connect` event, in order. */
    method FlushDeferred()
      requires socket == Some(Socket(true))
      modifies this
      ensures View() == AfterFlush(old(View()))
      ensures active == old(active) && builds == old(builds)
    {
      var waiting := deferred;
      deferred := [];
      var i := 0;
      while i < |waiting|
        invariant 0 <= i <= |waiting|
        invariant socket == Some(Socket(true)) && deferred == []
        invariant wire == old(wire) + waiting[..i]
        invariant active == old(active) && builds == old(builds)
      {
        var _ := Send(waiting[i]);
        assert waiting[..i + 1] == waiting[..i] + [waiting[i]];
        i := i + 1;
      }
      assert waiting[..i] == waiting;
    }
  }

  // ---------------------------------------------------------------------------
  // Service and Client
  // ---------------------------------------------------------------------------

  /** A mirror entry: a plain value or a call stub for the named method. */
  datatype MirrorEntry = Plain(value: Value) | Stub(name: string)

  /** The events a service emits (`ready` and `error`; never `change`). */
  datatype ServiceEvent = ReadyEvent | ErrorEvent(message: string)

  /** One `Service` object: `generation` tells apart successive services
      subscribed under the same id; `mirror` is `_original`. */
  datatype ServiceState = ServiceState(generation: nat, mirror: map<string, MirrorEntry>, events: seq<ServiceEvent>)

  /** The listener of an outstanding call: the service object it was
      registered on. */
  datatype PendingCall = PendingCall(service: ServiceId, generation: nat)

  /** The dispatch switch (lines 171-199) applied to the addressed service,
      for every letter except `"C"`. */
  function Apply(st: ServiceState, res: Response): (r: ServiceState)
    requires !res.CallResponse?
    ensures r.generation == st.generation
    ensures res.DeleteResponse? ==> r.mirror == st.mirror - {res.k}
    ensures res.WriteResponse? ==> r.mirror == st.mirror[res.k := Plain(res.v)]
    ensures res.FunctionResponse? ==> r.mirror == st.mirror[res.k := Stub(res.k)]
    ensures res.ErrorResponse? || res.ReadyResponse? ==> r.mirror == st.mirror
    ensures r.events == st.events + match res
      case ErrorResponse(_, m) => [ErrorEvent(m)]
      case ReadyResponse(_) => [ReadyEvent]
      case _ => []
  {
    match res
    case DeleteResponse(_, k) => st.(mirror := st.mirror - {k})
    case WriteResponse(_, k, v) => st.(mirror := st.mirror[k := Plain(v)])
    case FunctionResponse(_, k) => st.(mirror := st.mirror[k := Stub(k)])
    case ErrorResponse(_, m) => st.(events := st.events + [ErrorEvent(m)])
    case ReadyResponse(_) => st.(events := st.events + [ReadyEvent])
  }

  /** A message changes at most the key it names: every other mirror key
      keeps its entry. */
  lemma ApplyIsLocal(st: ServiceState, res: Response, other: string)
    requires !res.CallResponse?
    requires !(res.DeleteResponse? || res.WriteResponse? || res.FunctionResponse?) || other != res.k
    ensures (other in Apply(st, res).mirror) == (other in st.mirror)
    ensures other in st.mirror ==> Apply(st, res).mirror[other] == st.mirror[other]
  {
  }

  /** `Client` (lines 158-229) with its adaptor. */
  class Client {
    const adaptor: Adaptor
    var services: map<ServiceId, ServiceState>
    /** The ids of `services` in the `Map`'s insertion order. */
    var subscribed: seq<ServiceId>
    /** Outstanding calls, by call id. */
    var pending: map<CallId, PendingCall>
    /** How each settled call settled. */
    var settled: map<CallId, Settlement>
    /** How many `Service` objects have been constructed. */
    var generations: nat
    /** For each `Service` object, by construction order, the id it was
        constructed for. */
    ghost var owners: seq<ServiceId>

    ghost predicate Valid()
      reads this
    {
      && |owners| == generations
      && (forall s :: s in services ==> services[s].generation < generations && owners[services[s].generation] == s)
      && NoDuplicates(subscribed)
      && (forall s :: s in subscribed <==> s in services)
      && (forall i :: i in pending ==> i !in settled)
    }

    constructor (adaptor: Adaptor)
      ensures Valid()
      ensures this.adaptor == adaptor
      ensures services == map[] && subscribed == [] && pending == map[] && settled == map[] && generations == 0
      ensures owners == []
    {
      this.adaptor := adaptor;
      services, subscribed, pending, settled, generations := map[], [], map[], map[], 0;
      owners := [];
    }

    /** `getService(serviceId)` */
    function GetService(s: ServiceId): (r: Option<ServiceState>)
      reads this
      ensures r.Some? <==> s in services
      ensures r.Some? ==> r.value == services[s]
    {
      if s in services then Some(services[s]) else None
    }

    /** `send(request)` */
    method Send(r: Request) returns (out: Outcome)
      modifies adaptor
      ensures (adaptor.View(), out) == AfterSend(old(adaptor.View()), r)
      ensures adaptor.active == old(adaptor.active)
    {
      out := adaptor.Send(r);
    }

    /** `subscribe(serviceId)`: throws for an id already present; otherwise
        constructs one service (which sends `S` only if the socket is open)
        and adds it. */
    method Subscribe(s: ServiceId) returns (out: Outcome)
      requires Valid()
      modifies this, adaptor
      ensures Valid()
      ensures pending == old(pending) && settled == old(settled)
      ensures adaptor.socket == old(adaptor.socket) && adaptor.active == old(adaptor.active)
      ensures s in old(services) ==>
        && out == Thrown(AlreadySubscribed)
        && services == old(services) && subscribed == old(subscribed) && generations == old(generations)
        && owners == old(owners) && adaptor.View() == old(adaptor.View())
      ensures s !in old(services) ==>
        && out == Ok
        && services == old(services)[s := ServiceState(old(generations), map[], [])]
        && subscribed == old(subscribed) + [s]
        && generations == old(generations) + 1 && owners == old(owners) + [s]
        && adaptor.View() == if old(adaptor.socket) == Some(Socket(true))
                             then AfterSend(old(adaptor.View()), SubscribeRequest(s)).0
                             else old(adaptor.View())
    {
      if s in services {
        out := Thrown(AlreadySubscribed);
        return;
      }
      if adaptor.socket == Some(Socket(true)) {
        var _ := Send(SubscribeRequest(s));
      }
      services := services[s := ServiceState(generations, map[], [])];
      subscribed := subscribed + [s];
      generations := generations + 1;
      owners := owners + [s];
      out := Ok;
    }

    /** `unsubscribe(serviceId)`: the service is removed before `U` is sent,
        so it is gone even when the send throws. */
    method Unsubscribe(s: ServiceId) returns (out: Outcome)
      requires Valid()
      modifies this, adaptor
      ensures Valid()
      ensures services == old(services) - {s} && subscribed == Without(old(subscribed), s)
      ensures pending == old(pending) && settled == old(settled) && generations == old(generations)
      ensures owners == old(owners)
      ensures (adaptor.View(), out) == AfterSend(old(adaptor.View()), UnsubscribeRequest(s))
      ensures adaptor.active == old(adaptor.active)
    {
      services := services - {s};
      subscribed := Without(subscribed, s);
      out := Send(UnsubscribeRequest(s));
    }

    /** The adaptor's `message` listener (lines 167-200). A message for an
        unknown service changes nothing; `"C"` settles the matching
        outstanding call of that very service object. */
    method OnMessage(res: Response)
      requires Valid()
      modifies this
      ensures Valid()
      ensures generations == old(generations) && subscribed == old(subscribed) && owners == old(owners)
      ensures res.s !in old(services) ==>
        services == old(services) && pending == old(pending) && settled == old(settled)
      ensures res.s in old(services) && !res.CallResponse? ==>
        && services == old(services)[res.s := Apply(old(services)[res.s], res)]
        && pending == old(pending) && settled == old(settled)
      ensures res.s in old(services) && res.CallResponse? ==>
        && services == old(services)
        && if res.i in old(pending) && old(pending)[res.i] == PendingCall(res.s, old(services)[res.s].generation)
           then pending == old(pending) - {res.i} && settled == old(settled)[res.i := res.result]
           else pending == old(pending) && settled == old(settled)
    {
      if res.s !in services {
        return;
      }
      var service := services[res.s];
      match res
      case CallResponse(_, i, result) =>
        if i in pending && pending[i] == PendingCall(res.s, service.generation) {
          pending := pending - {i};
          settled := settled[i := result];
        }
      case _ =>
        services := services[res.s := Apply(service, res)];
    }

    /** The socket opened: the `connect` event runs the client's listener,
        which sends one `S` per service in the `Map`'s insertion order, and
        then the deferred sends. */
    method OnConnect()
      requires Valid() && adaptor.socket.Some?
      modifies this, adaptor
      ensures Valid()
      ensures services == old(services) && subscribed == old(subscribed)
      ensures pending == old(pending) && settled == old(settled) && generations == old(generations)
      ensures owners == old(owners)
      ensures adaptor.socket == Some(Socket(true)) && adaptor.deferred == []
      ensures adaptor.wire == old(adaptor.wire) + Subscriptions(subscribed) + old(adaptor.deferred)
      ensures adaptor.active == old(adaptor.active)
    {
      adaptor.OnOpen();
      for i := 0 to |subscribed|
        invariant services == old(services) && subscribed == old(subscribed)
        invariant adaptor.socket == Some(Socket(true)) && adaptor.deferred == old(adaptor.deferred)
        invariant adaptor.wire == old(adaptor.wire) + Subscriptions(subscribed[..i])
        invariant adaptor.active == old(adaptor.active)
        invariant pending == old(pending) && settled == old(settled) && generations == old(generations)
        invariant owners == old(owners)
      {
        var _ := Send(SubscribeRequest(subscribed[i]));
        SubscriptionsAppend(subscribed[..i], subscribed[i]);
        assert subscribed[..i + 1] == subscribed[..i] + [subscribed[i]];
      }
      assert subscribed[..|subscribed|] == subscribed;
      adaptor.FlushDeferred();
    }

    /** `Service.callFunction(name, args)` on the service object `generation`
        constructed for the id `s`, as `owners` records (it may since have
        been unsubscribed; a stub keeps its object), with the call id `id` the generator issued:
        the listener is registered, then the request is sent; a send that
        throws rejects the call at once and leaves no listener behind. The
        call id is assumed fresh: the generator only avoids repeats within
        one per-second bucket, which it drops after 9 ms. */
    method CallFunction(s: ServiceId, generation: nat, name: string, args: seq<Value>, id: CallId)
      requires Valid() && generation < generations && owners[generation] == s
      requires id !in pending && id !in settled
      modifies this, adaptor
      ensures Valid()
      ensures services == old(services) && subscribed == old(subscribed) && generations == old(generations)
      ensures owners == old(owners)
      ensures adaptor.View() == AfterSend(old(adaptor.View()), CallRequest(s, id, name, args)).0
      ensures adaptor.active == old(adaptor.active)
      ensures old(adaptor.socket).None? ==>
        pending == old(pending) && settled == old(settled)[id := Rejected(NoConnection)]
      ensures old(adaptor.socket).Some? ==>
        pending == old(pending)[id := PendingCall(s, generation)] && settled == old(settled)
    {
      pending := pending[id := PendingCall(s, generation)];
      var out := adaptor.Send(CallRequest(s, id, name, args));
      if out.Thrown? {
        settled := settled[id := Rejected(out.message)];
        pending := pending - {id};
      }
    }

    /** The call's timer firing: an outstanding call is unregistered and
        rejected with "Timeout"; a settled call's timer was cleared. */
    method Expire(id: CallId)
      requires Valid()
      modifies this
      ensures Valid()
      ensures services == old(services) && subscribed == old(subscribed) && generations == old(generations)
      ensures owners == old(owners)
      ensures id in old(pending) ==>
        pending == old(pending) - {id} && settled == old(settled)[id := Rejected(TimeoutMessage)]
      ensures id !in old(pending) ==> pending == old(pending) && settled == old(settled)
    {
      if id in pending {
        pending := pending - {id};
        settled := settled[id := Rejected(TimeoutMessage)];
      }
    }

    /** The `set` trap of `service.target`: sends `W` and leaves the mirror
        to the server's answer. */
    method SetProperty(s: ServiceId, k: string, v: Value) returns (out: Outcome)
      modifies adaptor
      ensures (adaptor.View(), out) == AfterSend(old(adaptor.View()), WriteRequest(s, k, v))
      ensures adaptor.active == old(adaptor.active)
    {
      out := Send(WriteRequest(s, k, v));
    }

    /** The `deleteProperty` trap of `service.target`: sends `D`. */
    method DeleteProperty(s: ServiceId, k: string) returns (out: Outcome)
      modifies adaptor
      ensures (adaptor.View(), out) == AfterSend(old(adaptor.View()), DeleteRequest(s, k))
      ensures adaptor.active == old(adaptor.active)
    {
      out := Send(DeleteRequest(s, k));
    }
  }

  /** One `S` request per id, in order. */
  function Subscriptions(ids: seq<ServiceId>): (r: seq<Request>)
    ensures |r| == |ids|
    ensures forall k :: 0 <= k < |ids| ==> r[k] == SubscribeRequest(ids[k])
  {
    seq(|ids|, k requires 0 <= k < |ids| => SubscribeRequest(ids[k]))
  }

  lemma SubscriptionsAppend(ids: seq<ServiceId>, s: ServiceId)
    ensures Subscriptions(ids + [s]) == Subscriptions(ids) + [SubscribeRequest(s)]
  {
  }
}
