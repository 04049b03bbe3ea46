/** The debug-session state machine of the Robot Framework debugger
    (`debugger/debugger.py`): a single `Debugger` object driven from two
    sides. The client's commands (`start`, `stop`, `continue_thread`,
    `pause_thread`, `next`, `step_in`, `step_out`, the breakpoint requests)
    change what the session should do; the lifecycle callbacks of the running
    test (`start_suite` ... `end_keyword`) keep the stack of frames and decide,
    through `process_start_state` and `process_end_state`, where execution
    pauses. The events the debugger sends are recorded in `events`, in order.
    Path resolution, the evaluation of breakpoint conditions and log messages,
    and `int()` of a hit condition are supplied by a `Context`. */
module Debugger {
  import opened Wrappers
  import opened JsonValue

  datatype State = Stopped | Running | Paused

  datatype RequestedState = Nothing | Pause | Next | StepIn | StepOut

  /** A breakpoint as the client sets it; `ident` stands for its `id()`. */
  datatype SourceBreakpoint = SourceBreakpoint(
    ident: int, line: int, condition: Option<string>, hitCondition: Option<string>, logMessage: Option<string>)

  /** `BreakpointsEntry`: the breakpoints of one file. */
  datatype BreakpointsEntry = BreakpointsEntry(breakpoints: seq<SourceBreakpoint>, lines: seq<int>)

  /** What `set_breakpoints` and `set_exception_breakpoints` answer. */
  datatype Breakpoint = Breakpoint(id: Option<int>, source: Option<string>, verified: bool, line: Option<int>)

  /** `ExceptionFilterOptions`. */
  datatype FilterOption = FilterOption(filterId: string, condition: Option<string>)

  /** `ExceptionBreakpointsEntry`. */
  datatype ExceptionBreakpointsEntry = ExceptionBreakpointsEntry(
    filters: seq<string>, filterOptions: Option<seq<FilterOption>>, exceptionOptions: Option<seq<Json>>)

  /** `HitCountEntry`: a hit count is kept per file, line and frame type. */
  datatype HitCountEntry = HitCountEntry(source: string, line: int, kind: string)

  /** `StackFrameEntry`; `id` stands for its `id()`, unique among the frames
      this debugger created. */
  datatype Frame = Frame(id: nat, name: string, kind: string, source: Option<string>, line: int, column: int)

  /** The frames' ids are distinct and below `count`. */
  ghost predicate DistinctIds(frames: seq<Frame>, count: nat) {
    && (forall j :: 0 <= j < |frames| ==> frames[j].id < count)
    && (forall j, k :: 0 <= j < k < |frames| ==> frames[j].id != frames[k].id)
  }

  /** `StackFrame`, an entry of a stack trace. */
  datatype StackFrame = StackFrame(id: nat, name: string, line: int, column: int, source: Option<string>)

  datatype StopReason = PauseStop | StepStop | BreakpointStop | ExceptionStop | EntryStop

  /** The events the debugger sends. */
  datatype Event =
    | ContinuedEvent(threadId: int)
    | StoppedEvent(reason: StopReason, hitBreakpointIds: seq<int>, description: Option<string>, text: Option<string>)
    | OutputEvent(output: string, source: Option<string>, line: Option<int>)
    | RobotEvent(event: string, kind: string, attributes: map<string, Json>, failedKeywords: Option<seq<map<string, Json>>>)
    | RobotLog(body: map<string, Json>)
    | RobotEnqueued(items: seq<string>)

  /** The main thread, known by its `ident` once it runs. */
  datatype ThreadInfo = ThreadInfo(ident: Option<int>)

  /** What the debugger takes from Python and Robot Framework: `Path.resolve`,
      whether a breakpoint condition holds (false when evaluating it raises),
      `int()` of a hit condition (`None` when it raises), and a log message
      with its variables replaced (or the error text appended). */
  datatype Context = Context(
    resolve: string -> string, holds: string -> bool, asInt: string -> Option<int>, expand: string -> string)

  const TestOrSuite: set<string> := {"TEST", "SUITE"}
  const Blocks: set<string> := {"FOR", "FOR ITERATION", "IF", "ELSE", "ELSE IF"}

  /** The number of block frames (loops and branches) at the front of `frames`. */
  function LeadingBlocks(frames: seq<Frame>): (k: nat)
    ensures k <= |frames|
    ensures forall j :: 0 <= j < k ==> frames[j].kind in Blocks
    ensures k < |frames| ==> frames[k].kind !in Blocks
  {
    if frames == [] || frames[0].kind !in Blocks then 0
    else 1 + LeadingBlocks(frames[1..])
  }

  /** Whether the requested stepping stops at a start callback at stack
      depth `depth`, and with which reason. */
  function RequestStop(requested: RequestedState, depth: int, stopStackLen: int): (r: Option<StopReason>)
  {
    match requested
    case Nothing => None
    case Pause => Some(PauseStop)
    case StepIn => Some(StepStop)
    case Next => if depth <= stopStackLen then Some(StepStop) else None
    case StepOut => if depth <= stopStackLen then Some(StepStop) else None
  }

  /** The breakpoints of `points` set on `line`, in order. */
  function OnLine(points: seq<SourceBreakpoint>, line: int): (r: seq<SourceBreakpoint>)
    ensures |r| <= |points|
    ensures forall p :: p in r <==> p in points && p.line == line
  {
    if points == [] then []
    else (if points[0].line == line then [points[0]] else []) + OnLine(points[1..], line)
  }

  function Idents(points: seq<SourceBreakpoint>): (ids: seq<int>)
    ensures |ids| == |points|
    ensures forall j :: 0 <= j < |points| ==> ids[j] == points[j].ident
  {
    if points == [] then [] else [points[0].ident] + Idents(points[1..])
  }

  /** `hit_counts[entry] += 1`, starting from 0. */
  function Count(counts: map<HitCountEntry, int>, key: HitCountEntry): (r: map<HitCountEntry, int>)
    ensures key in r && r[key] == (if key in counts then counts[key] else 0) + 1
    ensures forall k :: k != key ==> (k in r <==> k in counts) && (k in counts ==> r[k] == counts[k])
  {
    counts[key := (if key in counts then counts[key] else 0) + 1]
  }

  /** The hit condition lets the breakpoint through unless the count equals
      it, or it is not a number. */
  predicate HitPasses(ctx: Context, count: int, hitCondition: string) {
    match ctx.asInt(hitCondition)
    case None => false
    case Some(n) => count != n
  }

  /** The effect of the breakpoints at a line so far: whether one paused,
      the events, and the hit counts. */
  datatype Scan = Scan(paused: bool, events: seq<Event>, hitCounts: map<HitCountEntry, int>)

  /** The source a log point's output names: none for an empty path. */
  function SourceOf(path: string): (r: Option<string>)
    ensures r.Some? <==> path != ""
  {
    if path != "" then Some(path) else None
  }

  /** One breakpoint of the loop in `process_start_state`: a condition
      that does not hold ends the loop; a hit condition counts the hit and
      ends the loop unless it lets the breakpoint through; a log point writes
      its message and ends the loop; any other breakpoint pauses, reports the
      ids of all breakpoints at the line, and the loop goes on. The result
      says whether this breakpoint paused, and whether the loop ends. */
  function PointStep(ctx: Context, p: SourceBreakpoint, key: HitCountEntry, ids: seq<int>,
                     events: seq<Event>, hitCounts: map<HitCountEntry, int>): (r: (Scan, bool))
  {
    if p.condition.Some? && !ctx.holds(p.condition.value) then (Scan(false, events, hitCounts), true)
    else
      var counts := if p.hitCondition.Some? then Count(hitCounts, key) else hitCounts;
      if p.hitCondition.Some? && !HitPasses(ctx, counts[key], p.hitCondition.value) then (Scan(false, events, counts), true)
      else if p.logMessage.Some? && p.logMessage.value != "" then
        (Scan(false, events + [OutputEvent(ctx.expand(p.logMessage.value), SourceOf(key.source), Some(key.line))], counts), true)
      else (Scan(true, events + [StoppedEvent(BreakpointStop, ids, None, None)], counts), false)
  }

  /** The loop over the breakpoints at a line, from `acc` on. */
  function ScanPoints(ctx: Context, points: seq<SourceBreakpoint>, key: HitCountEntry, ids: seq<int>, acc: Scan): Scan
    decreases |points|
  {
    if points == [] then acc
    else
      var (step, done) := PointStep(ctx, points[0], key, ids, acc.events, acc.hitCounts);
      var next := Scan(acc.paused || step.paused, step.events, step.hitCounts);
      if done then next else ScanPoints(ctx, points[1..], key, ids, next)
  }

  /** What `process_start_state` changes: the state, the stepping request,
      the events and the hit counts. */
  datatype Progress = Progress(state: State, requested: RequestedState, events: seq<Event>, hitCounts: map<HitCountEntry, int>)

  /** `process_start_state` at stack depth `depth`, on the line `lineNo`
      of `source`: nothing happens while stopped; otherwise a due step
      pauses and is cleared, then the breakpoints of the resolved file at
      the line are scanned. */
  function StartOutcome(ctx: Context, breakpoints: map<string, BreakpointsEntry>, before: Progress,
                        depth: int, stopStackLen: int, source: string, lineNo: int, kind: string): (after: Progress)
  {
    if before.state == Stopped then before
    else
      var stop := RequestStop(before.requested, depth, stopStackLen);
      var path := ctx.resolve(source);
      var points := if path in breakpoints then OnLine(breakpoints[path].breakpoints, lineNo) else [];
      var scan := ScanPoints(ctx, points, HitCountEntry(path, lineNo, kind), Idents(points),
        Scan(false, if stop.Some? then before.events + [StoppedEvent(stop.value, [], None, None)] else before.events, before.hitCounts));
      Progress(if scan.paused || stop.Some? then Paused else before.state,
               if stop.Some? then Nothing else before.requested, scan.events, scan.hitCounts)
  }

  /** `source` from the first frame that has one, `line` and `column` from
      the top frame: the values `add_stackframe_entry` fills in. */
  function FirstSource(frames: seq<Frame>): (s: Option<string>)
    ensures s.Some? ==> exists j :: 0 <= j < |frames| && frames[j].source == s
    ensures s.None? ==> forall j :: 0 <= j < |frames| ==> frames[j].source.None?
  {
    if frames == [] then None
    else if frames[0].source.Some? then frames[0].source
    else FirstSource(frames[1..])
  }

  /** The frames of a stack trace from `start` up to, but not including, `stop`. */
  function Slice(frames: seq<Frame>, start: nat, stop: nat): (r: seq<StackFrame>)
    decreases |frames| - start
    ensures |r| == if start < stop && start < |frames| then (if stop < |frames| then stop else |frames|) - start else 0
    ensures forall j :: 0 <= j < |r| ==> r[j] == ToStackFrame(frames[start + j])
  {
    if start >= stop || start >= |frames| then []
    else [ToStackFrame(frames[start])] + Slice(frames, start + 1, stop)
  }

  function ToStackFrame(f: Frame): StackFrame {
    StackFrame(f.id, f.name, f.line, f.column, f.source)
  }

  /** The exception-filter ids the debugger supports. */
  const SupportedFilters: set<string> := {"failed_keyword", "failed_test", "failed_suite"}

  /** Whether a stored exception breakpoint carries a filter option with id `filterId`. */
  predicate Catches(entries: set<ExceptionBreakpointsEntry>, filterId: string) {
    exists v :: v in entries && v.filterOptions.Some? && exists o :: o in v.filterOptions.value && o.filterId == filterId
  }

  /** `f"Suite failed{f': {v}' if v else ''}"` and the test's likewise. */
  function FailedText(what: string, message: Option<string>): string {
    what + " failed" + (if message.Some? && message.value != "" then ": " + message.value else "")
  }

  /** `f"{v}"` of an optional string. */
  function Str(s: Option<string>): string {
    if s.Some? then s.value else "None"
  }

  class Debugger {
    var state: State
    var requestedState: RequestedState
    var stopStackLen: int
    var breakpoints: map<string, BreakpointsEntry>
    var exceptionBreakpoints: set<ExceptionBreakpointsEntry>
    var hitCounts: map<HitCountEntry, int>
    /** The stack, most recent frame first. */
    var stackFrames: seq<Frame>
    var mainThread: Option<ThreadInfo>
    var lastFailMessage: Option<string>
    var stopOnEntry: bool
    var noDebug: bool
    var outputLog: bool
    /** Every event sent, in order. */
    var events: seq<Event>
    /** The number of frames created, which gives each frame its id. */
    var frameCount: nat

    /** Frame ids are distinct and below the number of frames created. */
    ghost predicate Valid()
      reads this
    {
      DistinctIds(stackFrames, frameCount)
    }

    constructor ()
      ensures Valid()
      ensures state == Stopped && requestedState == Nothing && stopStackLen == 0
      ensures breakpoints == map[] && exceptionBreakpoints == {} && hitCounts == map[] && stackFrames == []
      ensures mainThread == None && lastFailMessage == None && !stopOnEntry && !noDebug && !outputLog
      ensures events == [] && frameCount == 0
    {
      state := Stopped;
      requestedState := Nothing;
      stopStackLen := 0;
      breakpoints := map[];
      exceptionBreakpoints := {};
      hitCounts := map[];
      stackFrames := [];
      mainThread := None;
      lastFailMessage := None;
      stopOnEntry := false;
      noDebug := false;
      outputLog := false;
      events := [];
      frameCount := 0;
    }

    /** The session's settings are as they were: the breakpoints, the
        exception breakpoints, the main thread, the debug and output flags
        and the last failure message. */
    twostate predicate Kept()
      reads this
    {
      && breakpoints == old(breakpoints) && exceptionBreakpoints == old(exceptionBreakpoints)
      && mainThread == old(mainThread) && noDebug == old(noDebug) && outputLog == old(outputLog)
      && lastFailMessage == old(lastFailMessage)
    }

    /** The stepping request and its depth, the hit counts and the
        stop-on-entry flag are as they were. */
    twostate predicate SteppingKept()
      reads this
    {
      && requestedState == old(requestedState) && stopStackLen == old(stopStackLen)
      && hitCounts == old(hitCounts) && stopOnEntry == old(stopOnEntry)
    }

    /** The part of the session a start callback changes. */
    function CurrentProgress(): Progress
      reads this
    {
      Progress(state, requestedState, events, hitCounts)
    }

    /** The check every stepping command starts with. */
    predicate IsMainThread(threadId: int)
      reads this
    {
      mainThread.Some? && mainThread.value.ident == Some(threadId)
    }

    method SetMainThread(thread: ThreadInfo)
      modifies this
      ensures mainThread == Some(thread)
      ensures breakpoints == old(breakpoints) && exceptionBreakpoints == old(exceptionBreakpoints)
      ensures noDebug == old(noDebug) && outputLog == old(outputLog) && lastFailMessage == old(lastFailMessage)
      ensures SteppingKept() && state == old(state)
      ensures stackFrames == old(stackFrames) && events == old(events) && frameCount == old(frameCount)
    {
      mainThread := Some(thread);
    }

    /** `send_event`: the event is sent, nothing else changes. */
    method SendEvent(e: Event)
      modifies this
      ensures events == old(events) + [e]
      ensures Kept() && state == old(state) && requestedState == old(requestedState) && stopStackLen == old(stopStackLen)
      ensures stackFrames == old(stackFrames) && frameCount == old(frameCount) && stopOnEntry == old(stopOnEntry)
      ensures hitCounts == old(hitCounts)
    {
      events := events + [e];
    }

    /** `start`. */
    method Start()
      modifies this
      ensures Kept()
      ensures state == Running
      ensures SteppingKept()
      ensures stackFrames == old(stackFrames) && events == old(events) && frameCount == old(frameCount)
    {
      state := Running;
    }

    /** `stop`: from any state; a Continued event is sent only when the main
        thread has a (non-zero) ident. */
    method Stop()
      modifies this
      ensures Kept()
      ensures state == Stopped
      ensures SteppingKept()
      ensures stackFrames == old(stackFrames) && frameCount == old(frameCount)
      ensures mainThread.Some? && mainThread.value.ident.Some? && mainThread.value.ident.value != 0 ==>
        events == old(events) + [ContinuedEvent(mainThread.value.ident.value)]
      ensures !(mainThread.Some? && mainThread.value.ident.Some? && mainThread.value.ident.value != 0) ==>
        events == old(events)
    {
      state := Stopped;
      if mainThread.Some? && mainThread.value.ident.Some? && mainThread.value.ident.value != 0 {
        events := events + [ContinuedEvent(mainThread.value.ident.value)];
      }
    }

    /** `continue_thread`. */
    method ContinueThread(threadId: int) returns (error: Option<string>)
      modifies this
      ensures !old(IsMainThread(threadId)) ==> error == Some("Invalid threadId") && unchanged(this)
      ensures old(IsMainThread(threadId)) ==>
        && Kept() && stopOnEntry == old(stopOnEntry) && hitCounts == old(hitCounts) && frameCount == old(frameCount)
        && error.None? && state == Running
        && requestedState == old(requestedState) && stopStackLen == old(stopStackLen)
        && stackFrames == old(stackFrames) && events == old(events)
    {
      if !IsMainThread(threadId) {
        return Some("Invalid threadId");
      }
      state := Running;
      error := None;
    }

    /** `pause_thread`. */
    method PauseThread(threadId: int) returns (error: Option<string>)
      modifies this
      ensures !old(IsMainThread(threadId)) ==> error == Some("Invalid threadId") && unchanged(this)
      ensures old(IsMainThread(threadId)) ==>
        && Kept() && stopOnEntry == old(stopOnEntry) && hitCounts == old(hitCounts) && frameCount == old(frameCount)
        && error.None? && state == Paused && requestedState == RequestedState.Pause
        && stopStackLen == old(stopStackLen) && stackFrames == old(stackFrames) && events == old(events)
    {
      if !IsMainThread(threadId) {
        return Some("Invalid threadId");
      }
      requestedState := RequestedState.Pause;
      state := Paused;
      error := None;
    }

    /** `next`: inside a test or suite it steps in; otherwise it stops at
        the next start at no greater depth, counting a loop or branch at the
        top as one level deeper. */
    method Next(threadId: int) returns (error: Option<string>)
      modifies this
      ensures !old(IsMainThread(threadId)) ==> error == Some("Invalid threadId") && unchanged(this)
      ensures old(IsMainThread(threadId)) ==>
        && Kept() && stopOnEntry == old(stopOnEntry) && hitCounts == old(hitCounts) && frameCount == old(frameCount)
        && error.None? && state == Running
        && stackFrames == old(stackFrames) && events == old(events)
        && (|stackFrames| > 0 && stackFrames[0].kind in TestOrSuite ==>
              requestedState == RequestedState.StepIn && stopStackLen == old(stopStackLen))
        && (!(|stackFrames| > 0 && stackFrames[0].kind in TestOrSuite) ==>
              && requestedState == RequestedState.Next
              && stopStackLen == |stackFrames| + (if |stackFrames| > 0 && stackFrames[0].kind in Blocks then 1 else 0))
    {
      if !IsMainThread(threadId) {
        return Some("Invalid threadId");
      }
      state := Running;
      if |stackFrames| > 0 && stackFrames[0].kind in TestOrSuite {
        requestedState := RequestedState.StepIn;
      } else {
        requestedState := RequestedState.Next;
        stopStackLen := |stackFrames|;
        if |stackFrames| > 0 && stackFrames[0].kind in Blocks {
          stopStackLen := stopStackLen + 1;
        }
      }
      error := None;
    }

    /** `step_in`. */
    method StepIn(threadId: int) returns (error: Option<string>)
      modifies this
      ensures !old(IsMainThread(threadId)) ==> error == Some("Invalid threadId") && unchanged(this)
      ensures old(IsMainThread(threadId)) ==>
        && Kept() && stopOnEntry == old(stopOnEntry) && hitCounts == old(hitCounts) && frameCount == old(frameCount)
        && error.None? && state == Running && requestedState == RequestedState.StepIn
        && stopStackLen == old(stopStackLen) && stackFrames == old(stackFrames) && events == old(events)
    {
      if !IsMainThread(threadId) {
        return Some("Invalid threadId");
      }
      requestedState := RequestedState.StepIn;
      state := Running;
      error := None;
    }

    /** `step_out`: it stops at the next start no deeper than the frame
        below the current one, skipping the loops and branches that
        directly enclose the current frame. */
    method StepOut(threadId: int) returns (error: Option<string>)
      modifies this
      ensures !old(IsMainThread(threadId)) ==> error == Some("Invalid threadId") && unchanged(this)
      ensures old(IsMainThread(threadId)) ==>
        && Kept() && stopOnEntry == old(stopOnEntry) && hitCounts == old(hitCounts) && frameCount == old(frameCount)
        && error.None? && state == Running && requestedState == RequestedState.StepOut
        && stackFrames == old(stackFrames) && events == old(events)
        && stopStackLen == |stackFrames| - 1 - (if |stackFrames| > 0 then LeadingBlocks(stackFrames[1..]) else 0)
    {
      if !IsMainThread(threadId) {
        return Some("Invalid threadId");
      }
      requestedState := RequestedState.StepOut;
      state := Running;
      var frames := stackFrames;
      var len := |frames| - 1;
      var i := 1;
      while i < |frames| && frames[i].kind in Blocks
        invariant 1 <= i
        invariant i == 1 || i <= |frames|
        invariant forall j :: 1 <= j < i && j < |frames| ==> frames[j].kind in Blocks
        invariant len == |frames| - 1 - (i - 1)
      {
        len := len - 1;
        i := i + 1;
      }
      if |frames| > 0 {
        assert forall j :: 0 <= j < i - 1 ==> frames[1..][j] == frames[j + 1];
        LeadingBlocksIs(frames[1..], i - 1);
      }
      stopStackLen := len;
      error := None;
    }

    /** `set_breakpoints`: `path` is the file's path, `None` for a source
        without one. Clearing a known file removes its entry; any other
        request for a file stores its breakpoints and answers each as
        verified, in order. */
    method SetBreakpoints(ctx: Context, path: Option<string>, points: Option<seq<SourceBreakpoint>>, lines: Option<seq<int>>)
      returns (result: seq<Breakpoint>)
      modifies this
      ensures state == old(state) && stackFrames == old(stackFrames) && events == old(events)
      ensures exceptionBreakpoints == old(exceptionBreakpoints) && mainThread == old(mainThread) && noDebug == old(noDebug)
      ensures outputLog == old(outputLog) && lastFailMessage == old(lastFailMessage) && frameCount == old(frameCount)
      ensures SteppingKept()
      ensures var p := if path.Some? && path.value != "" then ctx.resolve(path.value) else "";
        var none := (points.None? || points.value == []) && (lines.None? || lines.value == []);
        && (p in old(breakpoints) && none ==> result == [] && breakpoints == old(breakpoints) - {p})
        && (!(p in old(breakpoints) && none) && p != "" ==>
              var stored := if points.Some? then points.value else [];
              && breakpoints == old(breakpoints)[p := BreakpointsEntry(stored, if lines.Some? then lines.value else [])]
              && |result| == |stored|
              && forall j :: 0 <= j < |stored| ==>
                   result[j] == Breakpoint(Some(stored[j].ident), Some(p), true, Some(stored[j].line)))
        && (!(p in old(breakpoints) && none) && p == "" ==> result == [] && breakpoints == old(breakpoints))
    {
      var p := if path.Some? && path.value != "" then ctx.resolve(path.value) else "";
      var none := (points.None? || points.value == []) && (lines.None? || lines.value == []);
      if p in breakpoints && none {
        breakpoints := breakpoints - {p};
        return [];
      } else if p != "" {
        var stored := if points.Some? then points.value else [];
        breakpoints := breakpoints[p := BreakpointsEntry(stored, if lines.Some? then lines.value else [])];
        result := [];
        var i := 0;
        while i < |stored|
          invariant i <= |stored| && |result| == i
          invariant forall j :: 0 <= j < i ==> result[j] == Breakpoint(Some(stored[j].ident), Some(p), true, Some(stored[j].line))
        {
          result := result + [Breakpoint(Some(stored[i].ident), Some(p), true, Some(stored[i].line))];
          i := i + 1;
        }
      } else {
        result := [];
      }
    }

    /** `set_exception_breakpoints`: the old set is cleared; each option
        with a supported filter id stores the whole request and is answered
        verified, any other is answered unverified; no options at all is
        answered with `None`. */
    method SetExceptionBreakpoints(filters: seq<string>, filterOptions: Option<seq<FilterOption>>, exceptionOptions: Option<seq<Json>>)
      returns (result: Option<seq<Breakpoint>>)
      modifies this
      ensures state == old(state) && stackFrames == old(stackFrames) && events == old(events) && breakpoints == old(breakpoints)
      ensures mainThread == old(mainThread) && noDebug == old(noDebug) && outputLog == old(outputLog) && lastFailMessage == old(lastFailMessage)
      ensures SteppingKept() && frameCount == old(frameCount)
      ensures var options := if filterOptions.Some? then filterOptions.value else [];
        && (options == [] <==> result.None?)
        && (result.Some? ==>
              && |result.value| == |options|
              && forall j :: 0 <= j < |options| ==>
                   result.value[j] == Breakpoint(None, None, options[j].filterId in SupportedFilters, None))
        && ((exists j :: 0 <= j < |options| && options[j].filterId in SupportedFilters) ==>
              exceptionBreakpoints == {ExceptionBreakpointsEntry(filters, filterOptions, exceptionOptions)})
        && ((forall j :: 0 <= j < |options| ==> options[j].filterId !in SupportedFilters) ==>
              exceptionBreakpoints == {})
    {
      exceptionBreakpoints := {};
      var options := if filterOptions.Some? then filterOptions.value else [];
      var answers: seq<Breakpoint> := [];
      var i := 0;
      while i < |options|
        invariant i <= |options| && |answers| == i
        invariant state == old(state) && stackFrames == old(stackFrames) && events == old(events) && breakpoints == old(breakpoints)
        invariant mainThread == old(mainThread) && noDebug == old(noDebug) && outputLog == old(outputLog) && lastFailMessage == old(lastFailMessage)
        invariant SteppingKept() && frameCount == old(frameCount)
        invariant forall j :: 0 <= j < i ==> answers[j] == Breakpoint(None, None, options[j].filterId in SupportedFilters, None)
        invariant (exists j :: 0 <= j < i && options[j].filterId in SupportedFilters) ==>
          exceptionBreakpoints == {ExceptionBreakpointsEntry(filters, filterOptions, exceptionOptions)}
        invariant (forall j :: 0 <= j < i ==> options[j].filterId !in SupportedFilters) ==> exceptionBreakpoints == {}
      {
        if options[i].filterId in SupportedFilters {
          exceptionBreakpoints := exceptionBreakpoints + {ExceptionBreakpointsEntry(filters, filterOptions, exceptionOptions)};
          answers := answers + [Breakpoint(None, None, true, None)];
        } else {
          answers := answers + [Breakpoint(None, None, false, None)];
        }
        i := i + 1;
      }
      result := if answers == [] then None else Some(answers);
    }

    /** `process_start_state`: nothing happens while stopped. Otherwise the
        requested stepping may pause first; then the breakpoints of the
        resolved file at this line are scanned. */
    method ProcessStartState(ctx: Context, source: string, lineNo: int, kind: string)
      modifies this
      ensures old(events) <= events
      ensures Kept()
      ensures stopOnEntry == old(stopOnEntry)
      ensures stackFrames == old(stackFrames) && frameCount == old(frameCount)
      ensures breakpoints == old(breakpoints) && exceptionBreakpoints == old(exceptionBreakpoints)
      ensures old(state) == Stopped ==> unchanged(this)
      ensures stopStackLen == old(stopStackLen)
      ensures CurrentProgress() == StartOutcome(ctx, breakpoints, old(CurrentProgress()), |stackFrames|, stopStackLen, source, lineNo, kind)
    {
      if state == Stopped {
        return;
      }
      var stop := RequestStop(requestedState, |stackFrames|, stopStackLen);
      if stop.Some? {
        state := Paused;
        events := events + [StoppedEvent(stop.value, [], None, None)];
        requestedState := Nothing;
      }
      var path := ctx.resolve(source);
      var points := if path in breakpoints then OnLine(breakpoints[path].breakpoints, lineNo) else [];
      ScanBreakpoints(ctx, points, HitCountEntry(path, lineNo, kind));
    }

    /** The loop over the breakpoints at a line, against `ScanPoints`. */
    method ScanBreakpoints(ctx: Context, points: seq<SourceBreakpoint>, key: HitCountEntry)
      modifies this
      ensures old(events) <= events
      ensures Kept()
      ensures stopOnEntry == old(stopOnEntry)
      ensures var scan := ScanPoints(ctx, points, key, Idents(points), Scan(false, old(events), old(hitCounts)));
        && events == scan.events && hitCounts == scan.hitCounts
        && state == (if scan.paused then Paused else old(state))
      ensures stackFrames == old(stackFrames) && frameCount == old(frameCount) && requestedState == old(requestedState)
      ensures stopStackLen == old(stopStackLen)
    {
      var ids := Idents(points);
      ghost var goal := ScanPoints(ctx, points, key, ids, Scan(false, events, hitCounts));
      assert events <= goal.events by {
        ScanShape(ctx, points, key, ids, Scan(false, events, hitCounts));
      }
      ghost var paused := false;
      var i := 0;
      while i < |points|
        invariant i <= |points|
        invariant ScanPoints(ctx, points[i..], key, ids, Scan(paused, events, hitCounts)) == goal
        invariant state == (if paused then Paused else old(state))
        invariant Kept() && stopOnEntry == old(stopOnEntry)
        invariant stackFrames == old(stackFrames) && frameCount == old(frameCount) && requestedState == old(requestedState)
        invariant stopStackLen == old(stopStackLen)
      {
        assert points[i..][0] == points[i] && points[i..][1..] == points[i + 1..];
        ghost var step := PointStep(ctx, points[i], key, ids, events, hitCounts);
        var done := ScanPoint(ctx, points[i], key, ids);
        paused := paused || step.0.paused;
        if done {
          return;
        }
        i := i + 1;
      }
    }

    /** One turn of the loop over the breakpoints at a line, against
        `PointStep`; it returns whether the loop ends. */
    method ScanPoint(ctx: Context, point: SourceBreakpoint, key: HitCountEntry, ids: seq<int>) returns (done: bool)
      modifies this
      ensures Kept()
      ensures var (step, d) := PointStep(ctx, point, key, ids, old(events), old(hitCounts));
        && done == d && events == step.events && hitCounts == step.hitCounts
        && state == (if step.paused then Paused else old(state))
      ensures stopOnEntry == old(stopOnEntry) && stackFrames == old(stackFrames) && frameCount == old(frameCount)
      ensures requestedState == old(requestedState) && stopStackLen == old(stopStackLen)
    {
      if point.condition.Some? && !ctx.holds(point.condition.value) {
        return true;
      }
      if point.hitCondition.Some? {
        hitCounts := Count(hitCounts, key);
        if !HitPasses(ctx, hitCounts[key], point.hitCondition.value) {
          return true;
        }
      }
      if point.logMessage.Some? && point.logMessage.value != "" {
        events := events + [OutputEvent(ctx.expand(point.logMessage.value), SourceOf(key.source), Some(key.line))];
        return true;
      }
      state := Paused;
      events := events + [StoppedEvent(BreakpointStop, ids, None, None)];
      done := false;
    }

    /** `process_end_state`: a failure pauses exactly when a stored
        exception breakpoint carries the given filter id. Returns whether
        the thread then waits for the client. */
    method ProcessEndState(status: string, filterId: string, description: string, text: Option<string>) returns (waits: bool)
      modifies this
      ensures Kept()
      ensures stopOnEntry == old(stopOnEntry)
      ensures waits <==> status == "FAIL" && Catches(exceptionBreakpoints, filterId)
      ensures waits ==> state == Paused && events == old(events) + [StoppedEvent(ExceptionStop, [], Some(description), text)]
      ensures !waits ==> state == old(state) && events == old(events)
      ensures requestedState == old(requestedState) && stopStackLen == old(stopStackLen)
      ensures stackFrames == old(stackFrames) && frameCount == old(frameCount) && hitCounts == old(hitCounts)
      ensures breakpoints == old(breakpoints) && exceptionBreakpoints == old(exceptionBreakpoints)
    {
      waits := status == "FAIL" && Catches(exceptionBreakpoints, filterId);
      if waits {
        state := Paused;
        events := events + [StoppedEvent(ExceptionStop, [], Some(description), text)];
      }
    }

    /** `wait_for_running`, modelled by what holds when it returns: the
        client has set the session running or stopped. */
    method WaitForRunning(resumed: State)
      requires resumed != Paused
      modifies this
      ensures Kept()
      ensures state in {Running, Stopped}
      ensures old(state) != Paused ==> state == old(state)
      ensures old(state) == Paused ==> state == resumed
      ensures SteppingKept()
      ensures stackFrames == old(stackFrames) && events == old(events) && frameCount == old(frameCount)
    {
      if state == Paused {
        state := resumed;
      }
    }

    /** `add_stackframe_entry`: a missing source is taken from the most
        recent frame that has one, a missing line or column from the top
        frame, else 0; the new frame goes on top. */
    method AddStackFrameEntry(name: string, kind: string, source: Option<string>, line: Option<int>, column: Option<int>)
      returns (entry: Frame)
      requires Valid()
      modifies this
      ensures Kept()
      ensures stopOnEntry == old(stopOnEntry)
      ensures Valid()
      ensures entry.id == old(frameCount) && frameCount == old(frameCount) + 1
      ensures stackFrames == [entry] + old(stackFrames)
      ensures entry.name == name && entry.kind == kind
      ensures entry.source == if source.Some? then source else FirstSource(old(stackFrames))
      ensures entry.line == if line.Some? then line.value else if |old(stackFrames)| > 0 then old(stackFrames)[0].line else 0
      ensures entry.column == if column.Some? then column.value else if |old(stackFrames)| > 0 then old(stackFrames)[0].column else 0
      ensures state == old(state) && requestedState == old(requestedState) && stopStackLen == old(stopStackLen)
      ensures events == old(events) && hitCounts == old(hitCounts)
    {
      var src, ln, col := FillFromFrames(stackFrames, source, line, column);
      entry := Frame(frameCount, name, kind, src, ln, col);
      PushDistinct(stackFrames, entry, frameCount);
      stackFrames := [entry] + stackFrames;
      frameCount := frameCount + 1;
    }

    /** The frame popped by an `end_*` callback, if the stack has one. */
    method PopFrame()
      modifies this
      ensures Kept() && SteppingKept()
      ensures stackFrames == if |old(stackFrames)| > 0 then old(stackFrames)[1..] else []
      ensures state == old(state) && events == old(events) && frameCount == old(frameCount)
      ensures Valid() <== old(Valid())
    {
      if |stackFrames| > 0 {
        if Valid() {
          PopDistinct(stackFrames, frameCount);
        }
        stackFrames := stackFrames[1..];
      }
    }

    /** `start_suite`: pushes the suite's frame; when debugging, pauses on
        entry once if asked to, and otherwise processes the start of a suite
        with a source. Returns whether the thread then waits for the client. */
    method StartSuite(ctx: Context, longname: string, source: Option<string>, lineNo: Option<int>) returns (waits: bool)
      requires Valid()
      modifies this
      ensures old(events) <= events
      ensures Kept()
      ensures Valid()
      ensures |stackFrames| == |old(stackFrames)| + 1 && stackFrames[1..] == old(stackFrames)
      ensures stackFrames[0].name == longname && stackFrames[0].kind == "SUITE"
      ensures frameCount == old(frameCount) + 1 && stopStackLen == old(stopStackLen)
      ensures noDebug ==> !waits && state == old(state) && events == old(events)
      ensures !noDebug && old(stopOnEntry) ==>
        && waits && !stopOnEntry && state == Paused && events == old(events) + [StoppedEvent(EntryStop, [], None, None)]
        && requestedState == old(requestedState) && hitCounts == old(hitCounts)
      ensures !(!noDebug && old(stopOnEntry)) ==> stopOnEntry == old(stopOnEntry)
      ensures waits <==> !noDebug && (old(stopOnEntry) || (stackFrames[0].source.Some? && stackFrames[0].source.value != ""))
      ensures waits && !old(stopOnEntry) ==>
        CurrentProgress() == StartOutcome(ctx, breakpoints, old(CurrentProgress()), |stackFrames|, stopStackLen,
                                          stackFrames[0].source.value, stackFrames[0].line, "SUITE")
      ensures !waits ==> SteppingKept() && state == old(state) && events == old(events)
    {
      var entry := AddStackFrameEntry(longname, "SUITE", source, lineNo, Some(1));
      waits := false;
      if !noDebug {
        if stopOnEntry {
          stopOnEntry := false;
          state := Paused;
          events := events + [StoppedEvent(EntryStop, [], None, None)];
          waits := true;
        } else if entry.source.Some? && entry.source.value != "" {
          ProcessStartState(ctx, entry.source.value, entry.line, entry.kind);
          waits := true;
        }
      }
    }

    /** `start_test`. */
    method StartTest(ctx: Context, longname: string, source: Option<string>, lineNo: Option<int>) returns (waits: bool)
      requires Valid()
      modifies this
      ensures old(events) <= events
      ensures Kept()
      ensures Valid()
      ensures |stackFrames| == |old(stackFrames)| + 1 && stackFrames[1..] == old(stackFrames)
      ensures stackFrames[0].name == longname && stackFrames[0].kind == "TEST"
      ensures frameCount == old(frameCount) + 1 && stopStackLen == old(stopStackLen) && stopOnEntry == old(stopOnEntry)
      ensures waits <==> !noDebug && stackFrames[0].source.Some? && stackFrames[0].source.value != ""
      ensures waits ==>
        CurrentProgress() == StartOutcome(ctx, breakpoints, old(CurrentProgress()), |stackFrames|, stopStackLen,
                                          stackFrames[0].source.value, stackFrames[0].line, "TEST")
      ensures !waits ==> SteppingKept() && state == old(state) && events == old(events)
    {
      var entry := AddStackFrameEntry(longname, "TEST", source, lineNo, Some(1));
      waits := false;
      if !noDebug && entry.source.Some? && entry.source.value != "" {
        ProcessStartState(ctx, entry.source.value, entry.line, entry.kind);
        waits := true;
      }
    }

    /** `start_keyword`: a keyword that is not run pushes no frame. */
    method StartKeyword(ctx: Context, kwname: string, kind: string, source: Option<string>, lineNo: Option<int>, status: string)
      returns (waits: bool)
      requires Valid()
      modifies this
      ensures old(events) <= events
      ensures Kept()
      ensures Valid()
      ensures status == "NOT RUN" ==> !waits && unchanged(this)
      ensures status != "NOT RUN" ==>
        && |stackFrames| == |old(stackFrames)| + 1 && stackFrames[1..] == old(stackFrames)
        && stackFrames[0].name == kwname && stackFrames[0].kind == kind
        && frameCount == old(frameCount) + 1
        && (waits <==> !noDebug && stackFrames[0].source.Some? && stackFrames[0].source.value != "")
      ensures stopStackLen == old(stopStackLen) && stopOnEntry == old(stopOnEntry)
      ensures waits ==>
        CurrentProgress() == StartOutcome(ctx, breakpoints, old(CurrentProgress()), |stackFrames|, stopStackLen,
                                          stackFrames[0].source.value, stackFrames[0].line, kind)
      ensures !waits ==> SteppingKept() && state == old(state) && events == old(events)
    {
      if status == "NOT RUN" {
        return false;
      }
      var entry := AddStackFrameEntry(kwname, kind, source, lineNo, Some(1));
      waits := false;
      if !noDebug && entry.source.Some? && entry.source.value != "" {
        ProcessStartState(ctx, entry.source.value, entry.line, entry.kind);
        waits := true;
      }
    }

    /** `end_suite` and `end_test`: when debugging, a failure may pause;
        then the top frame is popped. */
    method EndSuiteOrTest(what: string, filterId: string, status: string, message: Option<string>) returns (waits: bool)
      requires Valid()
      modifies this
      ensures Kept() && SteppingKept() && frameCount == old(frameCount)
      ensures Valid()
      ensures stackFrames == if |old(stackFrames)| > 0 then old(stackFrames)[1..] else []
      ensures waits <==> !noDebug && status == "FAIL" && Catches(exceptionBreakpoints, filterId)
      ensures waits ==>
        state == Paused && events == old(events) + [StoppedEvent(ExceptionStop, [], Some(what + " failed."), Some(FailedText(what, message)))]
      ensures !waits ==> state == old(state) && events == old(events)
    {
      waits := false;
      if !noDebug {
        waits := ProcessEndState(status, filterId, what + " failed.", Some(FailedText(what, message)));
      }
      PopFrame();
    }

    /** `end_suite`. */
    method EndSuite(status: string, message: Option<string>) returns (waits: bool)
      requires Valid()
      modifies this
      ensures old(events) <= events
      ensures Kept()
      ensures Valid()
      ensures stackFrames == if |old(stackFrames)| > 0 then old(stackFrames)[1..] else []
      ensures waits <==> !noDebug && status == "FAIL" && Catches(exceptionBreakpoints, "failed_suite")
      ensures waits ==>
        state == Paused && events == old(events) + [StoppedEvent(ExceptionStop, [], Some("Suite failed."), Some(FailedText("Suite", message)))]
      ensures !waits ==> state == old(state) && events == old(events)
      ensures SteppingKept() && frameCount == old(frameCount)
    {
      assert "Suite" + " failed." == "Suite failed.";
      waits := EndSuiteOrTest("Suite", "failed_suite", status, message);
    }

    /** `end_test`. */
    method EndTest(status: string, message: Option<string>) returns (waits: bool)
      requires Valid()
      modifies this
      ensures old(events) <= events
      ensures Kept()
      ensures Valid()
      ensures stackFrames == if |old(stackFrames)| > 0 then old(stackFrames)[1..] else []
      ensures waits <==> !noDebug && status == "FAIL" && Catches(exceptionBreakpoints, "failed_test")
      ensures waits ==>
        state == Paused && events == old(events) + [StoppedEvent(ExceptionStop, [], Some("Test failed."), Some(FailedText("Test", message)))]
      ensures !waits ==> state == old(state) && events == old(events)
      ensures SteppingKept() && frameCount == old(frameCount)
    {
      assert "Test" + " failed." == "Test failed.";
      waits := EndSuiteOrTest("Test", "failed_test", status, message);
    }

    /** `end_keyword`: a keyword that was run may pause on failure; the top
        frame is popped in every case, also for a keyword that was not run
        and so pushed none. */
    method EndKeyword(status: string) returns (waits: bool)
      requires Valid()
      modifies this
      ensures Kept() && SteppingKept() && frameCount == old(frameCount)
      ensures Valid()
      ensures stackFrames == if |old(stackFrames)| > 0 then old(stackFrames)[1..] else []
      ensures waits <==> !noDebug && status != "NOT RUN" && status == "FAIL" && Catches(exceptionBreakpoints, "failed_keyword")
      ensures waits ==>
        state == Paused && events == old(events) + [StoppedEvent(ExceptionStop, [], Some("Keyword failed."), Some("Keyword failed: " + Str(lastFailMessage)))]
      ensures !waits ==> state == old(state) && events == old(events)
    {
      waits := false;
      if !noDebug && status != "NOT RUN" {
        waits := ProcessEndState(status, "failed_keyword", "Keyword failed.", Some("Keyword failed: " + Str(lastFailMessage)));
      }
      PopFrame();
    }

    /** `log_message`: a FAIL message is remembered for the keyword's
        failure text; with log output on, the message is sent as output at
        the top frame. */
    method LogMessage(level: string, message: string, timestamp: string)
      modifies this
      ensures lastFailMessage == if level == "FAIL" then Some(message) else old(lastFailMessage)
      ensures outputLog ==> events == old(events) + [OutputEvent("LOG> " + timestamp + " " + level + ": " + message + "\n",
        if |stackFrames| > 0 then stackFrames[0].source else None, if |stackFrames| > 0 then Some(stackFrames[0].line) else None)]
      ensures !outputLog ==> events == old(events)
      ensures state == old(state) && stackFrames == old(stackFrames) && frameCount == old(frameCount)
      ensures breakpoints == old(breakpoints) && exceptionBreakpoints == old(exceptionBreakpoints) && mainThread == old(mainThread)
      ensures noDebug == old(noDebug) && outputLog == old(outputLog) && SteppingKept()
    {
      if level == "FAIL" {
        lastFailMessage := Some(message);
      }
      if outputLog {
        var top := if |stackFrames| > 0 then Some(stackFrames[0]) else None;
        events := events + [OutputEvent("LOG> " + timestamp + " " + level + ": " + message + "\n",
          if top.Some? then top.value.source else None, if top.Some? then Some(top.value.line) else None)];
      }
    }

    /** `get_stack_trace`: the frames from `startFrame` on, up to `levels`
        of them plus one more (all frames when `levels` is 0 or missing). */
    function StackTrace(startFrame: Option<nat>, levels: Option<nat>): (r: seq<StackFrame>)
      reads this
      ensures var start := if startFrame.Some? then startFrame.value else 0;
        && |r| == (if start >= |stackFrames| then 0
                   else if levels.Some? && levels.value > 0 && start + levels.value + 1 < |stackFrames| then levels.value + 1
                   else |stackFrames| - start)
        && forall j :: 0 <= j < |r| ==>
             && start + j < |stackFrames|
             && r[j] == StackFrame(stackFrames[start + j].id, stackFrames[start + j].name, stackFrames[start + j].line,
                                   stackFrames[start + j].column, stackFrames[start + j].source)
    {
      var start := if startFrame.Some? then startFrame.value else 0;
      var count := if levels.Some? && levels.value != 0 then levels.value else |stackFrames|;
      Slice(stackFrames, start, start + 1 + count)
    }
  }

  /** The loop of `add_stackframe_entry` that fills a missing source, line
      or column from the frames, most recent first, until all three are
      known; a line or column still missing is 0. */
  method FillFromFrames(frames: seq<Frame>, source: Option<string>, line: Option<int>, column: Option<int>)
    returns (src: Option<string>, ln: int, col: int)
    ensures src == if source.Some? then source else FirstSource(frames)
    ensures ln == if line.Some? then line.value else if |frames| > 0 then frames[0].line else 0
    ensures col == if column.Some? then column.value else if |frames| > 0 then frames[0].column else 0
  {
    var s, l, c := source, line, column;
    if s.None? || l.None? || c.None? {
      var i := 0;
      while i < |frames|
        invariant i <= |frames|
        invariant s == if source.Some? then source else FirstSource(frames[..i])
        invariant l == if line.Some? then line else if i > 0 then Some(frames[0].line) else None
        invariant c == if column.Some? then column else if i > 0 then Some(frames[0].column) else None
      {
        var v := frames[i];
        FirstSourceStep(frames, i);
        if s.None? {
          s := v.source;
        }
        if l.None? {
          l := Some(v.line);
        }
        if c.None? {
          c := Some(v.column);
        }
        if s.Some? && l.Some? && c.Some? {
          if source.None? {
            FirstSourceFound(frames, i + 1);
          }
          break;
        }
        i := i + 1;
      }
      if i == |frames| {
        assert frames[..i] == frames;
      }
    }
    src := s;
    ln := if l.Some? then l.value else 0;
    col := if c.Some? then c.value else 0;
  }

  /** A keyword that is not run pushes no frame but its end pops one: the
      suite's own frame is gone before the suite ends. */
  method NotRunKeywordPopsEnclosingFrame(ctx: Context) returns (before: nat, after: nat)
    ensures before == 1 && after == 0
  {
    var d := new Debugger();
    var waits := d.StartSuite(ctx, "Suite", None, Some(1));
    before := |d.stackFrames|;
    waits := d.StartKeyword(ctx, "Log", "KEYWORD", None, Some(2), "NOT RUN");
    waits := d.EndKeyword("NOT RUN");
    after := |d.stackFrames|;
  }

  /** `n` copies of the event a plain breakpoint sends. */
  function BreakpointStops(ids: seq<int>, n: nat): (r: seq<Event>)
    ensures |r| == n
  {
    if n == 0 then [] else BreakpointStops(ids, n - 1) + [StoppedEvent(BreakpointStop, ids, None, None)]
  }

  /** A breakpoint with no condition, hit condition or log message. */
  predicate Plain(p: SourceBreakpoint) {
    p.condition.None? && p.hitCondition.None? && (p.logMessage.None? || p.logMessage.value == "")
  }

  /** At a line whose breakpoints are all plain, each of them pauses and
      reports all of them: one stop event per breakpoint, no count changes. */
  lemma {:induction false} PlainBreakpointsAllStop(ctx: Context, points: seq<SourceBreakpoint>, key: HitCountEntry, ids: seq<int>, acc: Scan)
    requires forall j :: 0 <= j < |points| ==> Plain(points[j])
    ensures ScanPoints(ctx, points, key, ids, acc)
      == Scan(acc.paused || |points| > 0, acc.events + BreakpointStops(ids, |points|), acc.hitCounts)
    decreases |points|
  {
    if points != [] {
      var next := Scan(true, acc.events + [StoppedEvent(BreakpointStop, ids, None, None)], acc.hitCounts);
      PlainBreakpointsAllStop(ctx, points[1..], key, ids, next);
      BreakpointStopsFront(ids, |points| - 1);
    }
  }

  lemma {:induction false} BreakpointStopsFront(ids: seq<int>, n: nat)
    ensures [StoppedEvent(BreakpointStop, ids, None, None)] + BreakpointStops(ids, n) == BreakpointStops(ids, n + 1)
  {
    if n > 0 {
      BreakpointStopsFront(ids, n - 1);
    }
  }

  /** Scanning a line only appends events, changes no hit count but the
      line's own, and pauses only by sending a breakpoint stop. */
  lemma {:induction false} ScanShape(ctx: Context, points: seq<SourceBreakpoint>, key: HitCountEntry, ids: seq<int>, acc: Scan)
    ensures var r := ScanPoints(ctx, points, key, ids, acc);
      && acc.events <= r.events
      && (forall k :: k != key ==> (k in r.hitCounts <==> k in acc.hitCounts) && (k in acc.hitCounts ==> r.hitCounts[k] == acc.hitCounts[k]))
      && (acc.paused ==> r.paused)
      && (r.paused && !acc.paused ==> StoppedEvent(BreakpointStop, ids, None, None) in r.events[|acc.events|..])
    decreases |points|
  {
    if points != [] {
      var (step, done) := PointStep(ctx, points[0], key, ids, acc.events, acc.hitCounts);
      var next := Scan(acc.paused || step.paused, step.events, step.hitCounts);
      if !done {
        ScanShape(ctx, points[1..], key, ids, next);
        var r := ScanPoints(ctx, points[1..], key, ids, next);
        assert r.events[|acc.events|] == StoppedEvent(BreakpointStop, ids, None, None);
      }
    }
  }

  /** Whether one visit of a line pauses, and the hit counts after it. */
  function Visit(ctx: Context, points: seq<SourceBreakpoint>, key: HitCountEntry, counts: map<HitCountEntry, int>): (bool, map<HitCountEntry, int>) {
    var r := ScanPoints(ctx, points, key, Idents(points), Scan(false, [], counts));
    (r.paused, r.hitCounts)
  }

  /** The hit counts after `k` visits of a line, from none. */
  function Visits(ctx: Context, points: seq<SourceBreakpoint>, key: HitCountEntry, k: nat): map<HitCountEntry, int> {
    if k == 0 then map[] else Visit(ctx, points, key, Visits(ctx, points, key, k - 1)).1
  }

  /** A line with one breakpoint whose hit condition reads as `n`: the
      `k`-th visit counts `k` and pauses unless `k == n`, so the breakpoint
      is skipped on exactly the `n`-th hit. */
  lemma {:induction false} HitConditionSkipsNthHit(ctx: Context, p: SourceBreakpoint, key: HitCountEntry, n: int, k: nat)
    requires p.condition.None? && p.hitCondition.Some? && ctx.asInt(p.hitCondition.value) == Some(n)
    requires p.logMessage.None?
    ensures var counts := Visits(ctx, [p], key, k); key in counts ==> counts[key] == k
    ensures k > 0 ==> key in Visits(ctx, [p], key, k)
    ensures Visit(ctx, [p], key, Visits(ctx, [p], key, k)).0 <==> k + 1 != n
  {
    OneVisit(ctx, p, key, n, Visits(ctx, [p], key, k));
    if k > 0 {
      HitConditionSkipsNthHit(ctx, p, key, n, k - 1);
      OneVisit(ctx, p, key, n, Visits(ctx, [p], key, k - 1));
    }
  }

  /** One visit of a line whose one breakpoint has a hit condition. */
  lemma OneVisit(ctx: Context, p: SourceBreakpoint, key: HitCountEntry, n: int, counts: map<HitCountEntry, int>)
    requires p.condition.None? && p.hitCondition.Some? && ctx.asInt(p.hitCondition.value) == Some(n)
    requires p.logMessage.None?
    ensures var c := Count(counts, key); Visit(ctx, [p], key, counts) == (c[key] != n, c)
  {
    var c := Count(counts, key);
    var ids := Idents([p]);
    var acc := Scan(false, [], counts);
    var (step, done) := PointStep(ctx, p, key, ids, [], counts);
    assert step.hitCounts == c && step.paused == (c[key] != n) && done == (c[key] == n);
    assert [p][0] == p && [p][1..] == [];
    assert ScanPoints(ctx, [p], key, ids, acc) == ScanPoints(ctx, [], key, ids, Scan(step.paused, step.events, c)) || done;
  }

  /** The exception breakpoints `set_exception_breakpoints` stores catch a
      failure with filter id `id` exactly when one of the options has it. */
  lemma StoredFilterCatches(filters: seq<string>, options: seq<FilterOption>, exceptionOptions: Option<seq<Json>>, id: string)
    ensures Catches({ExceptionBreakpointsEntry(filters, Some(options), exceptionOptions)}, id)
      <==> exists j :: 0 <= j < |options| && options[j].filterId == id
  {
    var v := ExceptionBreakpointsEntry(filters, Some(options), exceptionOptions);
    if exists j :: 0 <= j < |options| && options[j].filterId == id {
      var j :| 0 <= j < |options| && options[j].filterId == id;
      assert options[j] in v.filterOptions.value;
    }
  }

  lemma PushDistinct(frames: seq<Frame>, entry: Frame, count: nat)
    requires DistinctIds(frames, count) && entry.id == count
    ensures DistinctIds([entry] + frames, count + 1)
  {
    var s := [entry] + frames;
    forall j, k | 0 <= j < k < |s|
      ensures s[j].id != s[k].id
    {
      if j > 0 {
        assert s[j] == frames[j - 1] && s[k] == frames[k - 1];
      } else {
        assert s[k] == frames[k - 1];
      }
    }
  }

  lemma PopDistinct(frames: seq<Frame>, count: nat)
    requires DistinctIds(frames, count) && |frames| > 0
    ensures DistinctIds(frames[1..], count)
  {
    var s := frames[1..];
    forall j, k | 0 <= j < k < |s|
      ensures s[j].id != s[k].id
    {
      assert s[j] == frames[j + 1] && s[k] == frames[k + 1];
    }
  }

  lemma LeadingBlocksIs(frames: seq<Frame>, k: nat)
    requires k <= |frames|
    requires forall j :: 0 <= j < k ==> frames[j].kind in Blocks
    requires k < |frames| ==> frames[k].kind !in Blocks
    ensures LeadingBlocks(frames) == k
    decreases k
  {
    if k > 0 {
      LeadingBlocksIs(frames[1..], k - 1);
    }
  }

  lemma FirstSourceStep(frames: seq<Frame>, i: nat)
    requires i < |frames|
    ensures FirstSource(frames[..i + 1]) == if FirstSource(frames[..i]).Some? then FirstSource(frames[..i]) else frames[i].source
  {
    if i > 0 {
      assert frames[..i + 1][1..] == frames[1..][..i];
      assert frames[..i][1..] == frames[1..][..i - 1];
      FirstSourceStep(frames[1..], i - 1);
    }
  }

  lemma FirstSourceFound(frames: seq<Frame>, i: nat)
    requires i <= |frames| && FirstSource(frames[..i]).Some?
    ensures FirstSource(frames) == FirstSource(frames[..i])
  {
    if i > 0 && frames[0].source.None? {
      assert frames[..i][1..] == frames[1..][..i - 1];
      FirstSourceFound(frames[1..], i - 1);
    }
  }
}
