/** The JSON-RPC 2.0 engine of the language server (`jsonrpc2/protocol.py`):
    the error codes, the method registry, the decoding of a received body
    into messages, and the request/response correlation of `JsonRPCProtocol`.
    Messages are values; what the protocol writes is recorded in `sent`, in
    order, and the framing of each written message is `Framing.Frame`. */
module JsonRpc {
  import opened Wrappers
  import opened JsonValue
  import opened Text
  import opened Binding
  import opened Batch

  // Error codes of section 5.1 of the JSON-RPC 2.0 Specification.
  const ParseError: int := -32700
  const InvalidRequest: int := -32600
  const MethodNotFound: int := -32601
  const InvalidParams: int := -32602
  const InternalError: int := -32603
  const ServerErrorStart: int := -32000
  const ServerErrorEnd: int := -32099

  const ProtocolVersion: string := "2.0"

  /** The name of the parameter that receives the converted params object. */
  const CatchAll: string := "params"

  /** A request id: `Union[int, str]`; `None` is `Option.None`. */
  datatype Id = IntId(n: int) | StrId(s: string)

  /** `str(id)`. */
  function IdText(id: Id): string {
    match id
    case IntId(n) => IntToString(n)
    case StrId(s) => s
  }

  datatype ErrorObject = ErrorObject(code: int, message: Option<string>, data: Option<Json>)

  /** The four message kinds; a `params` or `result` of `None` is `JNull`. */
  datatype Message =
    | Request(id: Option<Id>, methodName: string, params: Json)
    | Notification(methodName: string, params: Json)
    | Response(id: Option<Id>, result: Json)
    | ErrorReply(id: Option<Id>, error: ErrorObject)

  const BadVersion := Exception("InvalidProtocolVersionError", "Invalid JSON-RPC2 protocol version.")
  const NotJsonRpc := Exception("JsonRPCException", "Invalid JSON-RPC2 Message")

  /** `t` occurs in `s` (Python's `in` on strings). */
  predicate Contains(s: string, t: string) {
    StartsWith(s, t) || (s != [] && Contains(s[1..], t))
  }

  /** What `"jsonrpc" in d` and `d["jsonrpc"]` do to a decoded JSON value that
      is not an object: a string or a list without that member is simply not a
      JSON-RPC message, anything else is a `TypeError`. */
  function NotAnObject(d: Json): (f: Exception)
    requires !d.JObject?
    ensures f.kind == "TypeError" || f == NotJsonRpc
    ensures d.JInt? || d.JBool? || d.JNull? ==> f.kind == "TypeError"
  {
    match d
    case JNull => Exception("TypeError", "argument of type 'NoneType' is not iterable")
    case JBool(_) => Exception("TypeError", "argument of type 'bool' is not iterable")
    case JInt(_) => Exception("TypeError", "argument of type 'int' is not iterable")
    case JString(s) =>
      if Contains(s, "jsonrpc") then Exception("TypeError", "string indices must be integers") else NotJsonRpc
    case JArray(items) =>
      if JString("jsonrpc") in items then Exception("TypeError", "list indices must be integers or slices, not str")
      else NotJsonRpc
  }

  /** `inner` of `_generate_json_rpc_messages_from_dict`: the version check,
      then the conversion of the remaining members into one of the four
      message kinds by `convert`. */
  function DecodeOne(convert: map<string, Json> -> Result<Message, Exception>, d: Json): (r: Result<Message, Exception>)
    ensures r.Success? ==> d.JObject? && "jsonrpc" in d.fields && d.fields["jsonrpc"] == JString(ProtocolVersion)
    ensures d.JObject? && "jsonrpc" !in d.fields ==> r == Failure(NotJsonRpc)
    ensures d.JObject? && "jsonrpc" in d.fields && d.fields["jsonrpc"] != JString(ProtocolVersion) ==> r == Failure(BadVersion)
    ensures d.JObject? && "jsonrpc" in d.fields && d.fields["jsonrpc"] == JString(ProtocolVersion) ==> r == convert(d.fields - {"jsonrpc"})
  {
    if !d.JObject? then
      Failure(NotAnObject(d))
    else if "jsonrpc" in d.fields then
      if d.fields["jsonrpc"] != JString(ProtocolVersion) then Failure(BadVersion)
      else convert(d.fields - {"jsonrpc"})
    else Failure(NotJsonRpc)
  }

  /** `_generate_json_rpc_messages_from_dict`. */
  function Decode(convert: map<string, Json> -> Result<Message, Exception>, data: Json): Decoded<Message> {
    DecodeBody(d => DecodeOne(convert, d), data)
  }

  /** In a batch whose elements before `|ms|` are valid messages, an element
      `|ms|` that names another protocol version stops the batch there with
      an InvalidProtocolVersionError, which is answered with PARSE_ERROR. */
  lemma BatchWithBadVersion(convert: map<string, Json> -> Result<Message, Exception>, items: seq<Json>, ms: seq<Message>)
    requires |ms| < |items|
    requires forall j :: 0 <= j < |ms| ==> DecodeOne(convert, items[j]) == Success(ms[j])
    requires items[|ms|].JObject? && "jsonrpc" in items[|ms|].fields
    requires items[|ms|].fields["jsonrpc"] != JString(ProtocolVersion)
    ensures Decode(convert, JArray(items)) == Decoded(ms, Some(BadVersion))
  {
    BatchStops(d => DecodeOne(convert, d), items, ms, BadVersion);
  }

  /** `RpcMethodEntry`: the handler is described by whether it is callable,
      its signature, and whether a parameter type was registered for it. */
  datatype MethodEntry = MethodEntry(name: string, callable: bool, signature: seq<Parameter>, typed: bool)

  /** `RpcRegistry`: the method table of a protocol. */
  class RpcRegistry {
    var methods: map<string, MethodEntry>

    /** Every entry is stored under its own name. */
    ghost predicate Valid()
      reads this
    {
      forall name | name in methods :: methods[name].name == name
    }

    /** The table as collected from the `@rpc_method` decorations. */
    constructor (initial: seq<MethodEntry>)
      ensures Valid()
      ensures forall e :: e in initial ==> e.name in methods
      ensures forall name | name in methods :: exists e :: e in initial && e.name == name
    {
      var m: map<string, MethodEntry> := map[];
      var i := 0;
      while i < |initial|
        invariant i <= |initial|
        invariant forall name | name in m :: m[name].name == name
        invariant forall j :: 0 <= j < i ==> initial[j].name in m
        invariant forall name | name in m :: exists e :: e in initial[..i] && e.name == name
      {
        m := m[initial[i].name := initial[i]];
        i := i + 1;
      }
      assert initial[..i] == initial;
      methods := m;
    }

    /** `add_method`: a registered name is replaced. */
    method AddMethod(name: string, callable: bool, signature: seq<Parameter>, typed: bool)
      requires Valid()
      modifies this
      ensures Valid()
      ensures methods == old(methods)[name := MethodEntry(name, callable, signature, typed)]
    {
      methods := methods[name := MethodEntry(name, callable, signature, typed)];
    }

    /** `remove_method`: the removed entry, or `None` for an unknown name. */
    method RemoveMethod(name: string) returns (r: Option<MethodEntry>)
      requires Valid()
      modifies this
      ensures Valid()
      ensures methods == old(methods) - {name}
      ensures name in old(methods) ==> r == Some(old(methods)[name]) && r.value.name == name
      ensures name !in old(methods) ==> r == None
    {
      if name in methods {
        r := Some(methods[name]);
      } else {
        r := None;
      }
      methods := methods - {name};
    }

    /** `get_entry`: `None` for an unknown name. */
    method GetEntry(name: string) returns (r: Option<MethodEntry>)
      requires Valid()
      ensures r.Some? <==> name in methods
      ensures r.Some? ==> r.value == methods[name] && r.value.name == name
    {
      if name in methods {
        r := Some(methods[name]);
      } else {
        r := None;
      }
    }
  }

  /** The state of a future the protocol hands out or completes. */
  datatype FutureState =
    | Waiting
    | Resolved(value: Json)
    | Failed(failure: Exception)
    | Rejected(error: ErrorObject)  // failed with a `JsonRPCErrorException`

  /** How a request handler ended. */
  datatype Outcome =
    | Returned(value: Json)
    | RpcError(error: ErrorObject)  // raised `JsonRPCErrorException(code, message, data)`
    | Crashed(failure: Exception)     // raised any other exception
    | Cancelled

  /** `JsonRPCProtocol`'s tables. */
  class JsonRpcProtocol {
    const registry: RpcRegistry
    /** `_sended_request`: the future of each request sent and not yet answered. */
    var pending: map<Id, nat>
    /** `_sended_request_count`. */
    var count: nat
    /** `_received_request`: the requests whose handler is running, with their method. */
    var received: map<Option<Id>, string>
    /** The futures handed out by `send_request`, by index. */
    var futures: seq<FutureState>
    /** Every message written, in order. */
    var sent: seq<Message>

    /** Every pending id is an integer id already issued, and names a future. */
    ghost predicate Valid()
      reads this
    {
      forall id | id in pending :: id.IntId? && 1 <= id.n <= count && pending[id] < |futures|
    }

    constructor (registry: RpcRegistry)
      ensures Valid()
      ensures this.registry == registry
      ensures pending == map[] && count == 0 && received == map[] && futures == [] && sent == []
    {
      this.registry := registry;
      pending := map[];
      count := 0;
      received := map[];
      futures := [];
      sent := [];
    }

    /** `send_message`. */
    method SendMessage(m: Message)
      modifies this
      ensures sent == old(sent) + [m]
      ensures pending == old(pending) && count == old(count) && received == old(received) && futures == old(futures)
    {
      sent := sent + [m];
    }

    /** `send_error`. */
    method SendError(code: int, message: Option<string>, id: Option<Id>, data: Option<Json>)
      modifies this
      ensures sent == old(sent) + [ErrorReply(id, ErrorObject(code, message, data))]
      ensures pending == old(pending) && count == old(count) && received == old(received) && futures == old(futures)
    {
      SendMessage(ErrorReply(id, ErrorObject(code, message, data)));
    }

    /** `send_request`: the next id is issued, its entry stored, then the
        request written; the id was never issued before. */
    method SendRequest(methodName: string, params: Json) returns (id: int, future: nat)
      requires Valid()
      modifies this
      ensures Valid()
      ensures count == old(count) + 1 && id == count
      ensures forall k | k in old(pending) :: k.n < id
      ensures future == |old(futures)| && futures == old(futures) + [Waiting]
      ensures pending == old(pending)[IntId(id) := future]
      ensures sent == old(sent) + [Request(Some(IntId(id)), methodName, params)]
      ensures received == old(received)
    {
      count := count + 1;
      id := count;
      future := |futures|;
      futures := futures + [Waiting];
      pending := pending[IntId(id) := future];
      SendMessage(Request(Some(IntId(id)), methodName, params));
    }

    /** `send_notification`. */
    method SendNotification(methodName: string, params: Json)
      modifies this
      ensures sent == old(sent) + [Notification(methodName, params)]
      ensures pending == old(pending) && count == old(count) && received == old(received) && futures == old(futures)
    {
      SendMessage(Notification(methodName, params));
    }

    /** `handle_response`; `converted` is what converting the result to the
        requested type gives. */
    method HandleResponse(id: Option<Id>, converted: Result<Json, Exception>)
      requires Valid()
      modifies this
      ensures Valid()
      ensures count == old(count) && received == old(received)
      ensures id.None? ==>
        && pending == old(pending) && futures == old(futures)
        && sent == old(sent) + [ErrorReply(None, ErrorObject(InternalError, Some("Invalid response. Response id is null."), None))]
      ensures id.Some? && id.value !in old(pending) ==>
        && pending == old(pending) && futures == old(futures)
        && sent == old(sent) + [ErrorReply(None, ErrorObject(InternalError,
             Some("Invalid response. Could not find id '" + IdText(id.value) + "' in our request list."), None))]
      ensures id.Some? && id.value in old(pending) ==>
        var f := old(pending)[id.value];
        && pending == old(pending) - {id.value}
        && sent == old(sent)
        && futures == old(futures)[f := if old(futures)[f].Waiting? then Completion(converted) else old(futures)[f]]
    {
      if id.None? {
        SendError(InternalError, Some("Invalid response. Response id is null."), None, None);
        return;
      }
      if id.value !in pending {
        SendError(InternalError, Some("Invalid response. Could not find id '" + IdText(id.value) + "' in our request list."), None, None);
        return;
      }
      var f := pending[id.value];
      pending := pending - {id.value};
      if futures[f].Waiting? {
        futures := futures[f := Completion(converted)];
      }
    }

    /** `handle_error` as written: it raises the error the peer sent and
        touches no table, so the request it answers stays pending. */
    method HandleErrorAsWritten(id: Option<Id>, error: ErrorObject) returns (raised: ErrorObject)
      ensures raised == error
    {
      raised := error;
    }

    /** `handle_error` as evidently intended, in the manner of `handle_response`
        and of the debug adapter's `handle_error_response`: the pending entry
        is removed and its future fails with the peer's error; an error for no
        pending request is raised as before. */
    method HandleError(id: Option<Id>, error: ErrorObject) returns (raised: Option<ErrorObject>)
      requires Valid()
      modifies this
      ensures Valid()
      ensures count == old(count) && received == old(received) && sent == old(sent)
      ensures raised.Some? <==> id.None? || id.value !in old(pending)
      ensures raised.Some? ==> raised.value == error && pending == old(pending) && futures == old(futures)
      ensures raised.None? ==>
        var f := old(pending)[id.value];
        && pending == old(pending) - {id.value}
        && futures == old(futures)[f := if old(futures)[f].Waiting? then Rejected(error) else old(futures)[f]]
    {
      if id.None? || id.value !in pending {
        return Some(error);
      }
      var f := pending[id.value];
      pending := pending - {id.value};
      if futures[f].Waiting? {
        futures := futures[f := Rejected(error)];
      }
      raised := None;
    }

    /** The first half of `handle_request`, up to the start of the handler:
        an unknown or non-callable method is answered with METHOD_NOT_FOUND, a
        failing conversion of the params with INTERNAL_ERROR; otherwise the
        request is entered as running and the call to make is returned.
        `attrs` and `conversion` stand for the converted params object. */
    method BeginRequest(id: Option<Id>, methodName: string, params: Json, attrs: set<string>, conversion: Option<Exception>)
      returns (call: Option<Call>)
      requires registry.Valid()
      modifies this
      ensures pending == old(pending) && count == old(count) && futures == old(futures)
      ensures methodName !in registry.methods || !registry.methods[methodName].callable ==>
        && call.None? && received == old(received)
        && sent == old(sent) + [ErrorReply(id, ErrorObject(MethodNotFound, Some("Unknown method: " + methodName), None))]
      ensures methodName in registry.methods && registry.methods[methodName].callable && conversion.Some? ==>
        && call.None? && received == old(received)
        && sent == old(sent) + [ErrorReply(id, ErrorObject(InternalError, Some(ExceptionText(conversion.value)), None))]
      ensures methodName in registry.methods && registry.methods[methodName].callable && conversion.None? ==>
        var e := registry.methods[methodName];
        && call == Some(CallFor(CatchAll, e.signature, e.typed, attrs, params))
        && received == old(received)[id := methodName]
        && sent == old(sent)
    {
      var e := registry.GetEntry(methodName);
      if e.None? || !e.value.callable {
        SendError(MethodNotFound, Some("Unknown method: " + methodName), id, None);
        return None;
      }
      if conversion.Some? {
        SendError(InternalError, Some(ExceptionText(conversion.value)), id, None);
        return None;
      }
      var args, kwArgs := ConvertParams(CatchAll, e.value.signature, e.value.typed, attrs, params);
      received := received[id := methodName];
      call := Some(Call(args, kwArgs));
    }

    /** The second half of `handle_request`, once the handler has ended: the
        request leaves the running table on every path, and the reply is the
        result, the handler's own error, INTERNAL_ERROR with the exception's
        text, or nothing for a cancelled handler. */
    method EndRequest(id: Option<Id>, outcome: Outcome)
      modifies this
      ensures id !in received
      ensures received == old(received) - {id}
      ensures pending == old(pending) && count == old(count) && futures == old(futures)
      ensures sent == old(sent) + Reply(id, outcome)
    {
      received := received - {id};
      match outcome {
        case Returned(v) =>
          SendMessage(Response(id, v));
        case RpcError(err) =>
          SendError(err.code, err.message, id, err.data);
        case Crashed(f) =>
          SendError(InternalError, Some(ExceptionText(f)), id, None);
        case Cancelled =>
      }
    }

    /** `handle_notification`: the call to make for a known callable method
        whose params convert, nothing for any other (a failing conversion is
        only logged); it never writes a message. `attrs` and `conversion`
        stand for the converted params object, as in `BeginRequest`. */
    method HandleNotification(methodName: string, params: Json, attrs: set<string>, conversion: Option<Exception>)
      returns (call: Option<Call>)
      requires registry.Valid()
      ensures call.Some? <==> methodName in registry.methods && registry.methods[methodName].callable && conversion.None?
      ensures call.Some? ==>
        var e := registry.methods[methodName];
        call.value == CallFor(CatchAll, e.signature, e.typed, attrs, params)
    {
      var e := registry.GetEntry(methodName);
      if e.None? || !e.value.callable || conversion.Some? {
        return None;
      }
      var args, kwArgs := ConvertParams(CatchAll, e.value.signature, e.value.typed, attrs, params);
      call := Some(Call(args, kwArgs));
    }

    /** `_handle_body`: `parsed` is the body decoded and parsed as JSON, or the
        exception that raised. The decoded messages are returned for dispatch,
        in order; a failure anywhere is answered with PARSE_ERROR. */
    method HandleBody(parsed: Result<Json, Exception>, convert: map<string, Json> -> Result<Message, Exception>)
      returns (dispatched: seq<Message>)
      modifies this
      ensures pending == old(pending) && count == old(count) && received == old(received) && futures == old(futures)
      ensures parsed.Failure? ==> dispatched == [] && sent == old(sent) + [ParseErrorReply(parsed.error)]
      ensures parsed.Success? ==>
        var d := Decode(convert, parsed.value);
        && dispatched == d.messages
        && sent == old(sent) + (if d.failure.Some? then [ParseErrorReply(d.failure.value)] else [])
    {
      if parsed.Failure? {
        SendError(ParseError, Some(ExceptionText(parsed.error)), None, None);
        return [];
      }
      var d := Decode(convert, parsed.value);
      dispatched := d.messages;
      if d.failure.Some? {
        SendError(ParseError, Some(ExceptionText(d.failure.value)), None, None);
      }
    }
  }

  /** What a future is completed with by a converted result. */
  function Completion(converted: Result<Json, Exception>): (s: FutureState)
    ensures !s.Waiting?
  {
    match converted
    case Success(v) => Resolved(v)
    case Failure(f) => Failed(f)
  }

  /** The PARSE_ERROR reply to a body that could not be decoded. */
  function ParseErrorReply(f: Exception): Message {
    ErrorReply(None, ErrorObject(ParseError, Some(ExceptionText(f)), None))
  }

  /** The messages `handle_request` writes once the handler ended. */
  function Reply(id: Option<Id>, outcome: Outcome): (r: seq<Message>)
    ensures outcome.Cancelled? <==> r == []
    ensures outcome.Returned? ==> r == [Response(id, outcome.value)]
    ensures outcome.RpcError? ==> r == [ErrorReply(id, outcome.error)]
    ensures outcome.Crashed? ==> |r| == 1 && r[0].ErrorReply? && r[0].id == id && r[0].error.code == InternalError
  {
    match outcome
    case Returned(v) => [Response(id, v)]
    case RpcError(err) => [ErrorReply(id, ErrorObject(err.code, err.message, err.data))]
    case Crashed(f) => [ErrorReply(id, ErrorObject(InternalError, Some(ExceptionText(f)), None))]
    case Cancelled => []
  }

  /** An error reply to a request this side sent leaves that request pending
      and its future waiting for ever under `handle_error` as written. */
  method ErrorReplyLeavesRequestWaiting() returns (stillPending: bool, state: FutureState)
    ensures stillPending && state == Waiting
  {
    var registry := new RpcRegistry([]);
    var p := new JsonRpcProtocol(registry);
    var id, future := p.SendRequest("workspace/configuration", JNull);
    var _ := p.HandleErrorAsWritten(Some(IntId(id)), ErrorObject(InternalError, Some("failed"), None));
    stillPending := IntId(id) in p.pending;
    state := p.futures[future];
  }

  /** Under the corrected `handle_error`, the same reply fails that future
      with the peer's error and clears the request. */
  method ErrorReplyRejectsRequest() returns (stillPending: bool, state: FutureState)
    ensures !stillPending && state == Rejected(ErrorObject(InternalError, Some("failed"), None))
  {
    var registry := new RpcRegistry([]);
    var p := new JsonRpcProtocol(registry);
    var id, future := p.SendRequest("workspace/configuration", JNull);
    var _ := p.HandleError(Some(IntId(id)), ErrorObject(InternalError, Some("failed"), None));
    stillPending := IntId(id) in p.pending;
    state := p.futures[future];
  }
}
