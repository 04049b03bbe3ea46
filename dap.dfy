/** The Debug Adapter Protocol engine (`debugger/protocol.py`): the texts of
    its two exceptions, error responses and their defaults, and the request
    correlation of `DebugAdapterProtocol`, whose tables are keyed by the
    `seq` of the request. What the protocol writes is recorded in `sent`, in
    order; the framing of each written message is `Framing.Frame` with
    `Framing.DapHeaderLines`. */
module Dap {
  import opened Wrappers
  import opened JsonValue
  import opened Text
  import opened Binding
  import opened Batch
  import JsonRpc

  /** The name of the parameter that receives the converted arguments object. */
  const CatchAll: string := "arguments"

  /** The protocol's `Message`: a user-visible error text with placeholders. */
  datatype UserMessage = UserMessage(format: string, variables: map<string, string>, showUser: bool)

  /** `ErrorResponse`; its `body.error` is `error`. */
  datatype ErrorResponse = ErrorResponse(requestSeq: int, command: string, success: bool, message: Option<string>, error: Option<UserMessage>)

  /** The messages the protocol writes. */
  datatype ProtocolMessage =
    | Request(sequence: int, command: string, arguments: Json)
    | Response(requestSeq: int, command: string, success: bool, message: Option<string>, body: Json)
    | Error(response: ErrorResponse)
    | Event(event: string, body: Json)

  /** The text of `DebugAdapterErrorResponseError(error)`; `detail` is the
      text of `error.body.error` when there is one (`str` of a `Message` is
      not part of this model). A missing message reads `None`, as Python
      formats it. */
  function ErrorResponseErrorText(error: ErrorResponse, detail: string): string {
    (if error.message.Some? then error.message.value else "None")
      + " " + SeqAndCommand(error.requestSeq, error.command)
      + DetailTail(error.error, detail)
  }

  /** The text of `DebugAdapterRPCErrorException(message, request_seq, command,
      success, error_message)`: the message and a space only when it is not
      empty, then the sequence and command, then `": "` and `detail`, the text of
      the error message, only when there is one. */
  function RpcErrorText(message: Option<string>, requestSeq: int, command: string, errorMessage: Option<UserMessage>, detail: string): string {
    MessageHead(message) + SeqAndCommand(requestSeq, command) + DetailTail(errorMessage, detail)
  }

  function MessageHead(message: Option<string>): string {
    if message.Some? && message.value != "" then message.value + " " else ""
  }

  function SeqAndCommand(requestSeq: int, command: string): string {
    "(seq=" + IntToString(requestSeq) + " command=\"" + command + "\")"
  }

  function DetailTail(errorMessage: Option<UserMessage>, detail: string): string {
    if errorMessage.Some? then ": " + detail else ""
  }

  /** The text of the exception starts with the message and a space exactly
      when there is a non-empty message, and otherwise with the seq. */
  lemma RpcErrorTextStart(message: Option<string>, requestSeq: int, command: string, errorMessage: Option<UserMessage>, detail: string)
    ensures var t := RpcErrorText(message, requestSeq, command, errorMessage, detail);
      && (message.Some? && message.value != "" ==> StartsWith(t, message.value + " "))
      && (message.None? || message.value == "" ==> StartsWith(t, "(seq="))
  {
    var head := MessageHead(message);
    var core := SeqAndCommand(requestSeq, command);
    var tail := DetailTail(errorMessage, detail);
    assert head + core + tail == head + (core + tail);
    StartsWithAppend(head, core + tail);
    if head == "" {
      SeqAndCommandStart(requestSeq, command, tail);
    }
  }

  lemma SeqAndCommandStart(requestSeq: int, command: string, tail: string)
    ensures StartsWith(SeqAndCommand(requestSeq, command) + tail, "(seq=")
  {
    var rest := IntToString(requestSeq) + " command=\"" + command + "\")";
    assert SeqAndCommand(requestSeq, command) + tail == "(seq=" + (rest + tail);
    StartsWithAppend("(seq=", rest + tail);
  }

  /** The text of the exception ends with `": "` and the error message's text
      exactly when an error message is given, and otherwise with the command
      in quotes and a closing parenthesis. */
  lemma RpcErrorTextEnd(message: Option<string>, requestSeq: int, command: string, errorMessage: Option<UserMessage>, detail: string)
    ensures var t := RpcErrorText(message, requestSeq, command, errorMessage, detail);
      && (errorMessage.Some? ==> |t| >= |detail| + 2 && t[|t| - |detail| - 2..] == ": " + detail)
      && (errorMessage.None? ==> |t| >= |command| + 2 && t[|t| - |command| - 2..] == command + "\")")
  {
    var head := MessageHead(message) + "(seq=" + IntToString(requestSeq) + " command=\"";
    assert SeqAndCommand(requestSeq, command) == "(seq=" + IntToString(requestSeq) + " command=\"" + command + "\")";
    assert MessageHead(message) + SeqAndCommand(requestSeq, command) == head + (command + "\")");
    EndsWith(head, command + "\")");
    if errorMessage.Some? {
      EndsWith(head + (command + "\")"), ": " + detail);
    }
  }

  /** The last `|b|` elements of `a + b` are `b`. */
  lemma EndsWith<T>(a: seq<T>, b: seq<T>)
    ensures (a + b)[|a + b| - |b|..] == b
  {
  }

  /** `send_error`: its defaults are no message, seq -1, an empty command and
      no error message, and the response is unsuccessful unless `success` is
      `True`. */
  function ErrorReply(message: Option<string>, requestSeq: int, command: string, success: Option<bool>, errorMessage: Option<UserMessage>): (m: ProtocolMessage)
    ensures m.Error? && m.response.requestSeq == requestSeq && m.response.command == command
    ensures m.response.success <==> success == Some(true)
    ensures m.response.message == message && m.response.error == errorMessage
  {
    Error(ErrorResponse(requestSeq, command, success == Some(true), message, errorMessage))
  }

  /** How a request handler ended. */
  datatype Outcome =
    | Returned(value: Json)
    /** raised `DebugAdapterRPCErrorException(message, request_seq, command, success, error_message)` */
    | AdapterError(message: Option<string>, requestSeq: int, command: string, success: Option<bool>, errorMessage: Option<UserMessage>)
    /** raised `DebugAdapterErrorResponseError(error)` */
    | ErrorResponseRaised(error: ErrorResponse)
    /** raised any other exception */
    | Crashed(exception: Exception)
    | Cancelled

  /** What `handle_unknown_command` raises for `command`. */
  function UnknownCommand(command: string): Outcome {
    AdapterError(Some("Unknown Command '" + command + "'"), -1, "", None,
      Some(UserMessage("Unknown command \"{command}\"", map["command" := command], true)))
  }

  /** The messages `handle_request` writes for request `sequence` of `command`
      once its handler ended. */
  function Reply(sequence: int, command: string, outcome: Outcome): seq<ProtocolMessage> {
    match outcome
    case Returned(v) => [Response(sequence, command, true, None, v)]
    case AdapterError(message, _, exCommand, success, errorMessage) =>
      [ErrorReply(message, sequence, if exCommand != "" then exCommand else command, Some(success == Some(true)), errorMessage)]
    case ErrorResponseRaised(error) =>
      [ErrorReply(error.message, sequence, command, Some(false), error.error)]
    case Crashed(e) =>
      [ErrorReply(Some(e.kind), sequence, command, Some(false), Some(UserMessage(ExceptionText(e), map[], true)))]
    case Cancelled => []
  }

  /** Every reply answers the request it was for: it carries the request's
      seq, is a success for a returned result and unsuccessful for every
      other outcome except an adapter error that says success, and is absent
      only for a cancelled handler. */
  lemma ReplyAnswersRequest(sequence: int, command: string, outcome: Outcome)
    ensures var r := Reply(sequence, command, outcome);
      && (r == [] <==> outcome.Cancelled?)
      && (r != [] ==> |r| == 1 && (r[0].Response? || r[0].Error?))
      && (r != [] && r[0].Response? ==> r[0].requestSeq == sequence && r[0].command == command && r[0].success)
      && (r != [] && r[0].Error? ==> r[0].response.requestSeq == sequence)
      && (r != [] && r[0].Error? && !outcome.AdapterError? ==> !r[0].response.success && r[0].response.command == command)
  {
  }

  /** An error the handler raises keeps its own command unless that is
      empty, and is a success only when the exception says so explicitly. */
  lemma AdapterErrorReply(sequence: int, command: string, message: Option<string>, exSeq: int, exCommand: string, success: Option<bool>, errorMessage: Option<UserMessage>)
    ensures Reply(sequence, command, AdapterError(message, exSeq, exCommand, success, errorMessage))
         == [Error(ErrorResponse(sequence, if exCommand == "" then command else exCommand, success == Some(true), message, errorMessage))]
  {
  }

  /** An unknown command is answered, under the request's own seq and
      command, with an unsuccessful "Unknown Command" error response. */
  lemma UnknownCommandReply(sequence: int, command: string)
    ensures Reply(sequence, command, UnknownCommand(command))
         == [Error(ErrorResponse(sequence, command, false, Some("Unknown Command '" + command + "'"),
              Some(UserMessage("Unknown command \"{command}\"", map["command" := command], true))))]
  {
  }

  /** The state of a future handed out by `send_request`. */
  datatype FutureState =
    | Waiting
    | Resolved(value: Json)
    | Failed(exception: Exception)
    | Refused(error: ErrorResponse)  // failed with a `DebugAdapterErrorResponseError`

  /** What `handle_request` starts: the registered handler with its
      arguments, or `handle_unknown_command`, which raises `outcome`. */
  datatype Task = RunHandler(call: Call) | Raise(outcome: Outcome)

  /** `DebugAdapterProtocol`'s tables. */
  class DebugAdapterProtocol {
    const registry: JsonRpc.RpcRegistry
    /** `_sended_request`: the future of each request sent and not yet answered, by seq. */
    var pending: map<int, nat>
    /** `_received_request`: the requests whose handler is running, with their command. */
    var received: map<int, string>
    /** The futures handed out by `send_request`, by index. */
    var futures: seq<FutureState>
    /** Every message written, in order. */
    var sent: seq<ProtocolMessage>

    /** Every pending entry names a future. */
    ghost predicate Valid()
      reads this
    {
      forall sequence | sequence in pending :: pending[sequence] < |futures|
    }

    constructor (registry: JsonRpc.RpcRegistry)
      ensures Valid()
      ensures this.registry == registry
      ensures pending == map[] && received == map[] && futures == [] && sent == []
    {
      this.registry := registry;
      pending := map[];
      received := map[];
      futures := [];
      sent := [];
    }

    /** `send_message`. */
    method SendMessage(m: ProtocolMessage)
      modifies this
      ensures sent == old(sent) + [m]
      ensures pending == old(pending) && received == old(received) && futures == old(futures)
    {
      sent := sent + [m];
    }

    /** `send_request`: the entry is stored under the caller's seq, replacing
        any entry already stored there, then the request is written. */
    method SendRequest(sequence: int, command: string, arguments: Json) returns (future: nat)
      requires Valid()
      modifies this
      ensures Valid()
      ensures future == |old(futures)| && futures == old(futures) + [Waiting]
      ensures pending == old(pending)[sequence := future]
      ensures sent == old(sent) + [Request(sequence, command, arguments)]
      ensures received == old(received)
    {
      future := |futures|;
      futures := futures + [Waiting];
      pending := pending[sequence := future];
      SendMessage(Request(sequence, command, arguments));
    }

    /** `handle_response`; `converted` is what converting a successful body
        to the requested type gives. An unknown seq is answered with an
        "invalid response" error; otherwise the entry is removed and a
        waiting future completed: with the result, or, for an unsuccessful
        response, with the response as an error. */
    method HandleResponse(requestSeq: int, command: string, success: bool, message: Option<string>, body: Json, converted: Result<Json, Exception>)
      requires Valid()
      modifies this
      ensures Valid()
      ensures received == old(received)
      ensures requestSeq !in old(pending) ==>
        && pending == old(pending) && futures == old(futures)
        && sent == old(sent) + [ErrorReply(Some("invalid response"), -1, "", None,
             Some(UserMessage("Invalid response. Could not find id '" + IntToString(requestSeq) + "' in our request list", map[], true)))]
      ensures requestSeq in old(pending) ==>
        var f := old(pending)[requestSeq];
        var done := if success then Completion(converted) else Refused(ErrorResponse(requestSeq, command, false, message, None));
        && pending == old(pending) - {requestSeq}
        && sent == old(sent)
        && futures == old(futures)[f := if old(futures)[f].Waiting? then done else old(futures)[f]]
    {
      if requestSeq !in pending {
        var error := "Invalid response. Could not find id '" + IntToString(requestSeq) + "' in our request list";
        SendMessage(ErrorReply(Some("invalid response"), -1, "", None, Some(UserMessage(error, map[], true))));
        return;
      }
      var f := pending[requestSeq];
      pending := pending - {requestSeq};
      if futures[f].Waiting? {
        if success {
          futures := futures[f := Completion(converted)];
        } else {
          futures := futures[f := Refused(ErrorResponse(requestSeq, command, false, message, None))];
        }
      }
    }

    /** `handle_error_response`: the entry is removed and its future fails
        with the error response; with no entry, the error is raised (`detail`
        is the text of the response's error message). Failing
        a future that is already done raises `InvalidStateError`. */
    method HandleErrorResponse(error: ErrorResponse, detail: string) returns (raised: Option<Exception>)
      requires Valid()
      modifies this
      ensures Valid()
      ensures received == old(received) && sent == old(sent)
      ensures pending == old(pending) - {error.requestSeq}
      ensures error.requestSeq !in old(pending) ==>
        && futures == old(futures)
        && raised == Some(Exception("DebugAdapterErrorResponseError", ErrorResponseErrorText(error, detail)))
      ensures error.requestSeq in old(pending) ==>
        var f := old(pending)[error.requestSeq];
        && (old(futures)[f].Waiting? ==> raised.None? && futures == old(futures)[f := Refused(error)])
        && (!old(futures)[f].Waiting? ==> raised == Some(InvalidState) && futures == old(futures))
    {
      if error.requestSeq !in pending {
        return Some(Exception("DebugAdapterErrorResponseError", ErrorResponseErrorText(error, detail)));
      }
      var f := pending[error.requestSeq];
      pending := pending - {error.requestSeq};
      if futures[f].Waiting? {
        futures := futures[f := Refused(error)];
        raised := None;
      } else {
        raised := Some(InvalidState);
      }
    }

    /** The first half of `handle_request`, up to the start of the handler:
        an unknown or non-callable command starts `handle_unknown_command`; a
        failing conversion of the arguments is answered at once; otherwise
        the handler is started. A started task is entered as running under
        the request's seq. */
    method BeginRequest(sequence: int, command: string, arguments: Json, attrs: set<string>, conversion: Option<Exception>)
      returns (task: Option<Task>)
      requires registry.Valid()
      modifies this
      ensures pending == old(pending) && futures == old(futures)
      ensures command !in registry.methods || !registry.methods[command].callable ==>
        && task == Some(Raise(UnknownCommand(command)))
        && received == old(received)[sequence := command] && sent == old(sent)
      ensures command in registry.methods && registry.methods[command].callable && conversion.Some? ==>
        && task.None? && received == old(received)
        && sent == old(sent) + Reply(sequence, command, Crashed(conversion.value))
      ensures command in registry.methods && registry.methods[command].callable && conversion.None? ==>
        var e := registry.methods[command];
        && task == Some(RunHandler(CallFor(CatchAll, e.signature, e.typed, attrs, arguments)))
        && received == old(received)[sequence := command] && sent == old(sent)
    {
      var e := registry.GetEntry(command);
      if e.None? || !e.value.callable {
        task := Some(Raise(UnknownCommand(command)));
      } else if conversion.Some? {
        var c := conversion.value;
        SendMessage(ErrorReply(Some(c.kind), sequence, command, Some(false), Some(UserMessage(ExceptionText(c), map[], true))));
        return None;
      } else {
        var args, kwArgs := ConvertParams(CatchAll, e.value.signature, e.value.typed, attrs, arguments);
        task := Some(RunHandler(Call(args, kwArgs)));
      }
      received := received[sequence := command];
    }

    /** The second half of `handle_request`: the request leaves the running
        table on every path and its reply is written. */
    method EndRequest(sequence: int, command: string, outcome: Outcome)
      modifies this
      ensures sequence !in received
      ensures received == old(received) - {sequence}
      ensures pending == old(pending) && futures == old(futures)
      ensures sent == old(sent) + Reply(sequence, command, outcome)
    {
      received := received - {sequence};
      match outcome {
        case Returned(v) =>
          SendMessage(Response(sequence, command, true, None, v));
        case AdapterError(message, _, exCommand, success, errorMessage) =>
          SendMessage(ErrorReply(message, sequence, if exCommand != "" then exCommand else command, Some(success == Some(true)), errorMessage));
        case ErrorResponseRaised(error) =>
          SendMessage(ErrorReply(error.message, sequence, command, Some(false), error.error));
        case Crashed(e) =>
          SendMessage(ErrorReply(Some(e.kind), sequence, command, Some(false), Some(UserMessage(ExceptionText(e), map[], true))));
        case Cancelled =>
      }
    }

    /** `_handle_body`: the decoded messages are returned for dispatch, in
        order; a failure anywhere is answered with an "Invalid Message" error
        that quotes the exception and `bodyText`, the text of the raw body. */
    method HandleBody(parsed: Result<Json, Exception>, convert: Json -> Result<ProtocolMessage, Exception>, bodyText: string)
      returns (dispatched: seq<ProtocolMessage>)
      modifies this
      ensures pending == old(pending) && received == old(received) && futures == old(futures)
      ensures parsed.Failure? ==> dispatched == [] && sent == old(sent) + [InvalidMessage(parsed.error, bodyText)]
      ensures parsed.Success? ==>
        var d := DecodeBody(convert, parsed.value);
        && dispatched == d.messages
        && sent == old(sent) + (if d.failure.Some? then [InvalidMessage(d.failure.value, bodyText)] else [])
    {
      if parsed.Failure? {
        SendMessage(InvalidMessage(parsed.error, bodyText));
        return [];
      }
      var d := DecodeBody(convert, parsed.value);
      dispatched := d.messages;
      if d.failure.Some? {
        SendMessage(InvalidMessage(d.failure.value, bodyText));
      }
    }
  }

  /** The `InvalidStateError` of completing a future twice. */
  const InvalidState := Exception("InvalidStateError", "invalid state")

  /** What a future is completed with by a converted result. */
  function Completion(converted: Result<Json, Exception>): (s: FutureState)
    ensures !s.Waiting?
    ensures converted.Success? <==> s.Resolved?
  {
    match converted
    case Success(v) => Resolved(v)
    case Failure(e) => Failed(e)
  }

  /** The error written for a body that cannot be decoded. */
  function InvalidMessage(e: Exception, bodyText: string): ProtocolMessage {
    ErrorReply(Some("Invalid Message: " + ExceptionText(e) + " -> " + bodyText), -1, "", None, None)
  }
}
