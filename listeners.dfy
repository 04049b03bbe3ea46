/** The Robot Framework listeners of the debugger (`debugger/listeners.py`).
    `ListenerV2` forwards each lifecycle callback to the `Debugger`, wraps it
    in `robotStarted`/`robotEnded` events, keeps the failed keywords of the
    running test and turns log messages into `robotLog` events. `ListenerV3`
    announces, when a suite starts, every suite and test it will run. Robot's
    attribute dictionaries are maps from names to JSON values. */
module Listeners {
  import opened Wrappers
  import opened JsonValue
  import Dbg = Debugger

  /** `attributes.get(key)` as a string, `None` when missing or not a string. */
  function Text(attributes: map<string, Json>, key: string): (r: Option<string>)
    ensures r.Some? <==> key in attributes && attributes[key].JString?
  {
    if key in attributes && attributes[key].JString? then Some(attributes[key].s) else None
  }

  /** `attributes.get(key, default)` for a string attribute. */
  function TextOr(attributes: map<string, Json>, key: string, default: string): string {
    match Text(attributes, key)
    case Some(s) => s
    case None => default
  }

  /** `attributes.get("lineno", 1)`: 1 when missing, `None` when present but
      not a number. */
  function LineNo(attributes: map<string, Json>): (r: Option<int>)
    ensures "lineno" !in attributes ==> r == Some(1)
  {
    if "lineno" !in attributes then Some(1)
    else if attributes["lineno"].JInt? then Some(attributes["lineno"].i)
    else None
  }

  /** Python truthiness of a JSON value. */
  predicate Truthy(j: Json) {
    match j
    case JNull => false
    case JBool(b) => b
    case JInt(i) => i != 0
    case JString(s) => s != ""
    case JArray(items) => items != []
    case JObject(fields) => fields != map[]
  }

  /** `attributes.get("message")` when it is a non-empty string. */
  function MessageText(attributes: map<string, Json>): Option<string> {
    Text(attributes, "message")
  }

  /** An optional string as a JSON value. */
  function JsonText(s: Option<string>): Json {
    if s.Some? then JString(s.value) else JNull
  }

  /** `{"message": last_fail_message, **attributes}`: the attributes win
      over the message when they carry a "message" of their own. */
  function FailedKeyword(lastFailMessage: Option<string>, attributes: map<string, Json>): (r: map<string, Json>)
    ensures "message" in r
    ensures forall k :: k in attributes ==> k in r && r[k] == attributes[k]
    ensures "message" !in attributes ==> r["message"] == JsonText(lastFailMessage)
    ensures forall k :: k in r ==> k == "message" || k in attributes
  {
    map["message" := JsonText(lastFailMessage)] + attributes
  }

  /** A log message as Robot passes it to a listener. */
  datatype LogRecord = LogRecord(level: string, message: string, timestamp: string, html: bool)

  function RecordFields(m: LogRecord): map<string, Json> {
    map["message" := JString(m.message), "level" := JString(m.level), "timestamp" := JString(m.timestamp), "html" := JBool(m.html)]
  }

  /** The name of the innermost suite or test on the stack, if any. */
  function ItemId(frames: seq<Dbg.Frame>): (r: Option<string>)
    ensures r.Some? ==> exists j :: 0 <= j < |frames| && frames[j].kind in Dbg.TestOrSuite && frames[j].name == r.value
    ensures r.Some? <==> exists j :: 0 <= j < |frames| && frames[j].kind in Dbg.TestOrSuite
  {
    if frames == [] then None
    else if frames[0].kind in Dbg.TestOrSuite then Some(frames[0].name)
    else
      var r := ItemId(frames[1..]);
      assert forall j :: 0 <= j < |frames| - 1 ==> frames[1..][j] == frames[j + 1];
      r
  }

  /** The body of a `robotLog` event: the item and the top frame's position,
      then the message's own fields. */
  function LogBody(frames: seq<Dbg.Frame>, m: LogRecord): (r: map<string, Json>)
    ensures forall k :: k in RecordFields(m) ==> k in r && r[k] == RecordFields(m)[k]
    ensures r.Keys == {"itemId", "source", "lineno", "column"} + RecordFields(m).Keys
  {
    var top := if frames != [] then Some(frames[0]) else None;
    map[
      "itemId" := JsonText(ItemId(frames)),
      "source" := (if top.Some? then JsonText(top.value.source) else JNull),
      "lineno" := (if top.Some? then JInt(top.value.line) else JNull),
      "column" := (if top.Some? then JInt(top.value.column) else JNull)
    ] + RecordFields(m)
  }

  class ListenerV2 {
    const debugger: Dbg.Debugger
    const noDebug: bool
    var failedKeywords: Option<seq<map<string, Json>>>
    var lastFailMessage: Option<string>

    constructor (debugger: Dbg.Debugger, noDebug: bool)
      ensures this.debugger == debugger && this.noDebug == noDebug
      ensures failedKeywords == None && lastFailMessage == None
    {
      this.debugger := debugger;
      this.noDebug := noDebug;
      failedKeywords := None;
      lastFailMessage := None;
    }

    /** `start_suite`: `robotStarted` is sent before the debugger sees the suite. */
    method StartSuite(ctx: Dbg.Context, name: string, attributes: map<string, Json>) returns (waits: bool)
      requires debugger.Valid()
      modifies debugger
      ensures debugger.Valid()
      ensures |debugger.events| > |old(debugger.events)|
      ensures debugger.events[..|old(debugger.events)| + 1] == old(debugger.events) + [Dbg.RobotEvent("robotStarted", "suite", attributes, None)]
      ensures |debugger.stackFrames| == |old(debugger.stackFrames)| + 1
      ensures debugger.stackFrames[0].name == TextOr(attributes, "longname", "") && debugger.stackFrames[0].kind == "SUITE"
    {
      debugger.SendEvent(Dbg.RobotEvent("robotStarted", "suite", attributes, None));
      ghost var sent := debugger.events;
      waits := debugger.StartSuite(ctx, TextOr(attributes, "longname", ""), Text(attributes, "source"), LineNo(attributes));
      assert debugger.events[..|sent|] == sent;
    }

    /** `end_suite`: the debugger ends the suite before `robotEnded`, which
        carries the failed keywords. */
    method EndSuite(name: string, attributes: map<string, Json>) returns (waits: bool)
      requires debugger.Valid()
      modifies debugger
      ensures debugger.Valid()
      ensures |debugger.events| > |old(debugger.events)|
      ensures debugger.events[..|old(debugger.events)|] == old(debugger.events)
      ensures debugger.events[|debugger.events| - 1] == Dbg.RobotEvent("robotEnded", "suite", attributes, failedKeywords)
      ensures debugger.stackFrames == if |old(debugger.stackFrames)| > 0 then old(debugger.stackFrames)[1..] else []
    {
      waits := debugger.EndSuite(TextOr(attributes, "status", ""), MessageText(attributes));
      debugger.SendEvent(Dbg.RobotEvent("robotEnded", "suite", attributes, failedKeywords));
    }

    /** `start_test`: the failed keywords start afresh. */
    method StartTest(ctx: Dbg.Context, name: string, attributes: map<string, Json>) returns (waits: bool)
      requires debugger.Valid()
      modifies this, debugger
      ensures debugger.Valid()
      ensures failedKeywords == None && lastFailMessage == old(lastFailMessage)
      ensures |debugger.events| > |old(debugger.events)|
      ensures debugger.events[..|old(debugger.events)| + 1] == old(debugger.events) + [Dbg.RobotEvent("robotStarted", "test", attributes, None)]
      ensures |debugger.stackFrames| == |old(debugger.stackFrames)| + 1
      ensures debugger.stackFrames[0].name == TextOr(attributes, "longname", "") && debugger.stackFrames[0].kind == "TEST"
    {
      failedKeywords := None;
      debugger.SendEvent(Dbg.RobotEvent("robotStarted", "test", attributes, None));
      ghost var sent := debugger.events;
      waits := debugger.StartTest(ctx, TextOr(attributes, "longname", ""), Text(attributes, "source"), LineNo(attributes));
      assert debugger.events[..|sent|] == sent;
    }

    /** `end_test`: `robotEnded` carries the test's failed keywords, which
        are then dropped. */
    method EndTest(name: string, attributes: map<string, Json>) returns (waits: bool)
      requires debugger.Valid()
      modifies this, debugger
      ensures debugger.Valid()
      ensures |debugger.events| > |old(debugger.events)|
      ensures debugger.events[..|old(debugger.events)|] == old(debugger.events)
      ensures debugger.events[|debugger.events| - 1] == Dbg.RobotEvent("robotEnded", "test", attributes, old(failedKeywords))
      ensures failedKeywords == None && lastFailMessage == old(lastFailMessage)
      ensures debugger.stackFrames == if |old(debugger.stackFrames)| > 0 then old(debugger.stackFrames)[1..] else []
    {
      waits := debugger.EndTest(TextOr(attributes, "status", ""), MessageText(attributes));
      debugger.SendEvent(Dbg.RobotEvent("robotEnded", "test", attributes, failedKeywords));
      failedKeywords := None;
    }

    /** `start_keyword`. */
    method StartKeyword(ctx: Dbg.Context, name: string, attributes: map<string, Json>) returns (waits: bool)
      requires debugger.Valid()
      modifies debugger
      ensures debugger.Valid()
      ensures |debugger.events| > |old(debugger.events)|
      ensures debugger.events[..|old(debugger.events)| + 1] == old(debugger.events) + [Dbg.RobotEvent("robotStarted", "keyword", attributes, None)]
      ensures TextOr(attributes, "status", "") == "NOT RUN" ==> debugger.stackFrames == old(debugger.stackFrames)
      ensures TextOr(attributes, "status", "") != "NOT RUN" ==> |debugger.stackFrames| == |old(debugger.stackFrames)| + 1
    {
      debugger.SendEvent(Dbg.RobotEvent("robotStarted", "keyword", attributes, None));
      ghost var sent := debugger.events;
      waits := debugger.StartKeyword(ctx, TextOr(attributes, "kwname", ""), TextOr(attributes, "type", "KEYWORD"),
        Text(attributes, "source"), LineNo(attributes), TextOr(attributes, "status", ""));
      assert debugger.events[..|sent|] == sent;
    }

    /** `end_keyword`: a failed keyword with a source goes to the front of
        the failed keywords, with the last failure message. The status is
        read with `attributes["status"]`, which Robot always supplies. */
    method EndKeyword(name: string, attributes: map<string, Json>) returns (waits: bool)
      requires "status" in attributes
      requires debugger.Valid()
      modifies this, debugger
      ensures debugger.Valid()
      ensures |debugger.events| > |old(debugger.events)|
      ensures debugger.events[..|old(debugger.events)|] == old(debugger.events)
      ensures debugger.events[|debugger.events| - 1] == Dbg.RobotEvent("robotEnded", "keyword", attributes, None)
      ensures attributes["status"] == JString("FAIL") && "source" in attributes && Truthy(attributes["source"]) ==>
        failedKeywords == Some([FailedKeyword(lastFailMessage, attributes)] + old(failedKeywords).GetOr([]))
      ensures !(attributes["status"] == JString("FAIL") && "source" in attributes && Truthy(attributes["source"])) ==>
        failedKeywords == old(failedKeywords)
      ensures lastFailMessage == old(lastFailMessage)
      ensures debugger.stackFrames == if |old(debugger.stackFrames)| > 0 then old(debugger.stackFrames)[1..] else []
    {
      waits := debugger.EndKeyword(TextOr(attributes, "status", ""));
      if attributes["status"] == JString("FAIL") && "source" in attributes && Truthy(attributes["source"]) {
        var earlier := if failedKeywords.None? then [] else failedKeywords.value;
        failedKeywords := Some([FailedKeyword(lastFailMessage, attributes)] + earlier);
      }
      debugger.SendEvent(Dbg.RobotEvent("robotEnded", "keyword", attributes, None));
    }

    /** `log_message`: a FAIL message is only remembered, and reaches
        neither the client nor the debugger; any other is sent as `robotLog`
        and then handed to the debugger. */
    method LogMessage(m: LogRecord)
      modifies this, debugger
      ensures m.level == "FAIL" ==> lastFailMessage == Some(m.message) && unchanged(debugger)
      ensures m.level != "FAIL" ==>
        && lastFailMessage == old(lastFailMessage)
        && |debugger.events| > |old(debugger.events)|
        && debugger.events[..|old(debugger.events)| + 1] == old(debugger.events) + [Dbg.RobotLog(LogBody(old(debugger.stackFrames), m))]
        && debugger.lastFailMessage == old(debugger.lastFailMessage)
      ensures failedKeywords == old(failedKeywords)
      ensures debugger.stackFrames == old(debugger.stackFrames) && debugger.frameCount == old(debugger.frameCount)
      ensures debugger.noDebug == old(debugger.noDebug) && debugger.exceptionBreakpoints == old(debugger.exceptionBreakpoints)
      ensures |debugger.events| >= |old(debugger.events)|
    {
      if m.level == "FAIL" {
        lastFailMessage := Some(m.message);
        return;
      }
      debugger.SendEvent(Dbg.RobotLog(LogBody(debugger.stackFrames, m)));
      ghost var sent := debugger.events;
      debugger.LogMessage(m.level, m.message, m.timestamp);
      assert debugger.events[..|sent|] == sent;
    }

    /** `log_message` as evidently intended: a FAIL message is also handed to
        the debugger, so that a keyword's failure stop can quote it. */
    method LogMessageForwarded(m: LogRecord)
      modifies this, debugger
      ensures m.level == "FAIL" ==> lastFailMessage == Some(m.message) && debugger.lastFailMessage == Some(m.message)
      ensures |debugger.events| >= |old(debugger.events)|
      ensures m.level == "FAIL" ==> debugger.events[..|old(debugger.events)|] == old(debugger.events)
      ensures m.level != "FAIL" ==>
        && lastFailMessage == old(lastFailMessage)
        && |debugger.events| > |old(debugger.events)|
        && debugger.events[..|old(debugger.events)| + 1] == old(debugger.events) + [Dbg.RobotLog(LogBody(old(debugger.stackFrames), m))]
      ensures failedKeywords == old(failedKeywords)
      ensures debugger.stackFrames == old(debugger.stackFrames) && debugger.frameCount == old(debugger.frameCount)
      ensures debugger.noDebug == old(debugger.noDebug) && debugger.exceptionBreakpoints == old(debugger.exceptionBreakpoints)
    {
      if m.level == "FAIL" {
        lastFailMessage := Some(m.message);
        debugger.LogMessage(m.level, m.message, m.timestamp);
        return;
      }
      debugger.SendEvent(Dbg.RobotLog(LogBody(debugger.stackFrames, m)));
      ghost var sent := debugger.events;
      debugger.LogMessage(m.level, m.message, m.timestamp);
      assert debugger.events[..|sent|] == sent;
    }
  }

  /** A failing keyword under an exception breakpoint for failed keywords:
      the stop's text never quotes the failure message, since the listener
      keeps FAIL messages from the debugger. */
  method FailureTextLost(ctx: Dbg.Context) returns (stop: Dbg.Event)
    ensures stop == Dbg.StoppedEvent(Dbg.ExceptionStop, [], Some("Keyword failed."), Some("Keyword failed: None"))
  {
    var d := new Dbg.Debugger();
    var l := new ListenerV2(d, false);
    var options := [Dbg.FilterOption("failed_keyword", None)];
    assert options[0].filterId in Dbg.SupportedFilters;
    var answer := d.SetExceptionBreakpoints(["failed_keyword"], Some(options), None);
    Dbg.StoredFilterCatches(["failed_keyword"], options, None, "failed_keyword");
    l.LogMessage(LogRecord("FAIL", "boom", "20240101 00:00:00.000", false));
    var waits := d.EndKeyword("FAIL");
    assert "Keyword failed: " + Dbg.Str(None) == "Keyword failed: None";
    stop := d.events[|d.events| - 1];
  }

  /** The same run with the message forwarded: the stop quotes it. */
  method FailureTextForwarded(ctx: Dbg.Context) returns (stop: Dbg.Event)
    ensures stop == Dbg.StoppedEvent(Dbg.ExceptionStop, [], Some("Keyword failed."), Some("Keyword failed: boom"))
  {
    var d := new Dbg.Debugger();
    var l := new ListenerV2(d, false);
    var options := [Dbg.FilterOption("failed_keyword", None)];
    assert options[0].filterId in Dbg.SupportedFilters;
    var answer := d.SetExceptionBreakpoints(["failed_keyword"], Some(options), None);
    Dbg.StoredFilterCatches(["failed_keyword"], options, None, "failed_keyword");
    l.LogMessageForwarded(LogRecord("FAIL", "boom", "20240101 00:00:00.000", false));
    var waits := d.EndKeyword("FAIL");
    assert "Keyword failed: " + Dbg.Str(Some("boom")) == "Keyword failed: boom";
    stop := d.events[|d.events| - 1];
  }

  /** A suite as `ListenerV3` sees it: its child suites and its tests'
      long names. */
  datatype Item = Suite(longname: string, suites: seq<Item>, tests: seq<string>)

  /** `enqueue`: child suites first, each in full, then the tests, then the
      suite itself. */
  function Enqueue(item: Item): seq<string>
    decreases item, 1
  {
    EnqueueAll(item.suites) + item.tests + [item.longname]
  }

  function EnqueueAll(items: seq<Item>): seq<string>
    decreases items, 0
  {
    if items == [] then [] else Enqueue(items[0]) + EnqueueAll(items[1..])
  }

  /** The number of suites and tests in a suite, itself included. */
  function Size(item: Item): nat
    decreases item, 1
  {
    1 + SizeAll(item.suites) + |item.tests|
  }

  function SizeAll(items: seq<Item>): nat
    decreases items, 0
  {
    if items == [] then 0 else Size(items[0]) + SizeAll(items[1..])
  }

  /** The long names of a suite and everything in it. */
  function Names(item: Item): multiset<string>
    decreases item, 1
  {
    multiset{item.longname} + NamesAll(item.suites) + multiset(item.tests)
  }

  function NamesAll(items: seq<Item>): multiset<string>
    decreases items, 0
  {
    if items == [] then multiset{} else Names(items[0]) + NamesAll(items[1..])
  }

  /** `robotEnqueued` lists each suite and test exactly once, and the suite
      itself last. */
  lemma {:induction false} EnqueueOncePerItem(item: Item)
    ensures |Enqueue(item)| == Size(item)
    ensures multiset(Enqueue(item)) == Names(item)
    ensures Enqueue(item)[|Enqueue(item)| - 1] == item.longname
    decreases item, 1
  {
    EnqueueAllOncePerItem(item.suites);
  }

  lemma {:induction false} EnqueueAllOncePerItem(items: seq<Item>)
    ensures |EnqueueAll(items)| == SizeAll(items)
    ensures multiset(EnqueueAll(items)) == NamesAll(items)
    decreases items, 0
  {
    if items != [] {
      EnqueueOncePerItem(items[0]);
      EnqueueAllOncePerItem(items[1..]);
    }
  }

  /** `ListenerV3.start_suite`: announces the suite's items. */
  method StartSuiteV3(debugger: Dbg.Debugger, data: Item)
    modifies debugger
    ensures debugger.events == old(debugger.events) + [Dbg.RobotEnqueued(Enqueue(data))]
    ensures debugger.stackFrames == old(debugger.stackFrames) && debugger.state == old(debugger.state)
  {
    debugger.SendEvent(Dbg.RobotEnqueued(Enqueue(data)));
  }
}
