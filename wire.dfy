/** The op-based wire protocol of `src/types.ts`: JavaScript values, the
    server responses and client requests, and their plain-object form (the
    object literal that is handed to the codec). */
module Wire {
  import opened Wrappers

  /** A JavaScript value as it can travel through the codec. Numbers are
      modelled as integers; functions are never sent as values. */
  datatype Value =
    | Undefined
    | Null
    | Bool(b: bool)
    | Num(n: int)
    | Str(s: string)
    | Arr(items: seq<Value>)
    | Obj(fields: map<string, Value>)

  /** ECMAScript ToBoolean. */
  predicate Truthy(v: Value) {
    match v
    case Undefined => false
    case Null => false
    case Bool(b) => b
    case Num(n) => n != 0
    case Str(s) => s != ""
    case _ => true
  }

  function DigitsOf(n: nat): (r: string)
    ensures |r| > 0
    ensures forall k :: 0 <= k < |r| ==> '0' <= r[k] <= '9'
    decreases n
  {
    if n < 10 then [('0' as int + n) as char] else DigitsOf(n / 10) + [('0' as int + n % 10) as char]
  }

  function JoinWith(parts: seq<string>, sep: string): string {
    if |parts| == 0 then "" else if |parts| == 1 then parts[0] else parts[0] + sep + JoinWith(parts[1..], sep)
  }

  /** ECMAScript `String(v)` (an array joins its items with `,`, rendering
      `undefined` and `null` items as empty text). */
  function ToJsString(v: Value): string
    decreases v
  {
    match v
    case Undefined => "undefined"
    case Null => "null"
    case Bool(b) => if b then "true" else "false"
    case Num(n) => if n < 0 then "-" + DigitsOf(-n) else DigitsOf(n)
    case Str(s) => s
    case Arr(items) =>
      JoinWith(seq(|items|, i requires 0 <= i < |items| =>
                 if items[i].Undefined? || items[i].Null? then "" else ToJsString(items[i])), ",")
    case Obj(_) => "[object Object]"
  }

  /** How a promise settled: fulfilled with a value or rejected with an
      `Error` whose message is `reason`. */
  datatype Settlement = Fulfilled(value: Value) | Rejected(reason: string)

  /** `ServerFunctionReturn` */
  datatype ServerFunctionReturn =
    | ReturnValue(uuid: string, value: Value)
    | ReturnError(uuid: string, message: string)
  {
    /** The settlement a caller sees: `"error" in data` rejects with `message`. */
    function Settle(): (r: Settlement) {
      match this
      case ReturnValue(_, v) => Fulfilled(v)
      case ReturnError(_, m) => Rejected(m)
    }
  }

  /** `ServerResponse = ServerReady | ServerSetter | ServerFunctionReturn` */
  datatype ServerResponse =
    | ServerReady
    | ServerSetter(key: string, func: bool, value: Value)
    | ServerReturn(ret: ServerFunctionReturn)

  /** `ClientRequest = ClientCall | ClientSetter` */
  datatype ClientRequest =
    | ClientCall(uuid: string, name: string, args: seq<Value>)
    | ClientSetter(key: string, value: Value)

  /** A plain JavaScript object: the fields it owns. */
  type Record = map<string, Value>

  /** Reading a field: an absent field reads as `undefined`. */
  function Field(r: Record, f: string): Value {
    if f in r then r[f] else Undefined
  }

  /** The object literal a server response is built as. */
  function ResponseRecord(m: ServerResponse): (r: Record)
    ensures "op" in r && r["op"] == Str(match m case ServerReady => "ready" case ServerSetter(_, _, _) => "set" case ServerReturn(_) => "return")
  {
    match m
    case ServerReady => map["op" := Str("ready")]
    case ServerSetter(k, f, v) => map["op" := Str("set"), "key" := Str(k), "func" := Bool(f), "value" := v]
    case ServerReturn(ReturnValue(u, v)) => map["op" := Str("return"), "uuid" := Str(u), "value" := v]
    case ServerReturn(ReturnError(u, msg)) =>
      map["op" := Str("return"), "uuid" := Str(u), "error" := Bool(true), "message" := Str(msg)]
  }

  /** Reads an object as a server response, switching on `op` as the
      receivers do and telling the two returns apart by `"error" in data`. */
  function ParseResponse(r: Record): Option<ServerResponse> {
    match Field(r, "op")
    case Str("ready") => Some(ServerReady)
    case Str("set") =>
      (match (Field(r, "key"), Field(r, "func"))
       case (Str(k), Bool(f)) => Some(ServerSetter(k, f, Field(r, "value")))
       case _ => None)
    case Str("return") =>
      (match Field(r, "uuid")
       case Str(u) =>
         if "error" in r then
           (match Field(r, "message")
            case Str(msg) => Some(ServerReturn(ReturnError(u, msg)))
            case _ => None)
         else Some(ServerReturn(ReturnValue(u, Field(r, "value"))))
       case _ => None)
    case _ => None
  }

  /** The object literal a client request is built as. */
  function RequestRecord(m: ClientRequest): (r: Record)
    ensures "op" in r && r["op"] == Str(if m.ClientCall? then "call" else "set")
  {
    match m
    case ClientCall(u, n, a) => map["op" := Str("call"), "uuid" := Str(u), "name" := Str(n), "args" := Arr(a)]
    case ClientSetter(k, v) => map["op" := Str("set"), "key" := Str(k), "value" := v]
  }

  /** Reads an object as a client request, switching on `op` as the server does. */
  function ParseRequest(r: Record): Option<ClientRequest> {
    match Field(r, "op")
    case Str("call") =>
      (match (Field(r, "uuid"), Field(r, "name"), Field(r, "args"))
       case (Str(u), Str(n), Arr(a)) => Some(ClientCall(u, n, a))
       case _ => None)
    case Str("set") =>
      (match Field(r, "key")
       case Str(k) => Some(ClientSetter(k, Field(r, "value")))
       case _ => None)
    case _ => None
  }

  /** Every server response is read back as itself. */
  lemma ResponseRoundTrip(m: ServerResponse)
    ensures ParseResponse(ResponseRecord(m)) == Some(m)
  {
  }

  /** Every client request is read back as itself. */
  lemma RequestRoundTrip(m: ClientRequest)
    ensures ParseRequest(RequestRecord(m)) == Some(m)
  {
  }

  /** A function return carries an `error` field exactly when it is a failure,
      and then that field is `true`. */
  lemma ErrorFieldDiscriminates(f: ServerFunctionReturn)
    ensures "error" in ResponseRecord(ServerReturn(f)) <==> f.ReturnError?
    ensures f.ReturnError? ==> ResponseRecord(ServerReturn(f))["error"] == Bool(true)
  {
  }

  /** The three response kinds carry three distinct `op` tags, and so do the
      two request kinds: a message is exactly one of them. */
  lemma OpTagsDistinct(a: ServerResponse, b: ServerResponse, c: ClientRequest, d: ClientRequest)
    ensures ResponseRecord(a)["op"] == ResponseRecord(b)["op"] <==>
      (a.ServerReady? && b.ServerReady?) || (a.ServerSetter? && b.ServerSetter?) || (a.ServerReturn? && b.ServerReturn?)
    ensures RequestRecord(c)["op"] == RequestRecord(d)["op"] <==> c.ClientCall? == d.ClientCall?
  {
  }
}
