/** The debug launcher's server side (`debugger/launcher/server.py`): the
    command line it builds to start the Robot Framework run under the
    debugger, where it runs it, how the run's output is categorised, and how
    `disconnect`, `terminate` and unknown commands depend on the connection to
    the launched debugger. Free ports, the launcher's own path and `str()` of
    variable and environment values are supplied by the caller. */
module Launcher {
  import opened Wrappers
  import opened Text
  import Dap
  import Dbg = Debugger

  /** The `launch` request's arguments. A missing `console` defaults to
      "integratedTerminal" before it reaches this model; `None` is an explicit
      null. Values of `variables` and `env` are already rendered by `str()`. */
  datatype LaunchArguments = LaunchArguments(
    python: string,
    cwd: string,
    target: Option<string>,
    args: Option<seq<string>>,
    env: Option<map<string, Option<string>>>,
    console: Option<string>,
    name: Option<string>,
    noDebug: Option<bool>,
    robotPythonPath: Option<seq<string>>,
    launcherArgs: Option<seq<string>>,
    launcherTimeout: Option<int>,
    attachPython: Option<bool>,
    variables: Option<seq<(string, string)>>,
    outputDir: Option<string>,
    outputMessages: Option<bool>,
    outputLog: Option<bool>,
    groupOutput: Option<bool>,
    stopOnEntry: Option<bool>)

  /** Python truthiness of an optional flag. */
  predicate Set(flag: Option<bool>) {
    flag == Some(true)
  }

  /** `launcherTimeout or 5`. */
  function ConnectTimeout(a: LaunchArguments): (t: int)
    ensures a.launcherTimeout.Some? && a.launcherTimeout.value != 0 ==> t == a.launcherTimeout.value
    ensures a.launcherTimeout.None? || a.launcherTimeout.value == 0 ==> t == 5
  {
    if a.launcherTimeout.Some? && a.launcherTimeout.value != 0 then a.launcherTimeout.value else 5
  }

  /** `[python, "-u", launcher, "-p", port, "-w", "-t", timeout]`. */
  function Head(a: LaunchArguments, launcher: string, port: nat): seq<string> {
    [a.python, "-u", launcher, "-p", NatToString(port), "-w", "-t", IntToString(ConnectTimeout(a))]
  }

  /** `s` when `b` holds, nothing otherwise. */
  function When(b: bool, s: seq<string>): seq<string> {
    if b then s else []
  }

  /** The launcher's own switches, in the order they are added. */
  function Flags(a: LaunchArguments, debugPort: nat): seq<string> {
    When(Set(a.noDebug), ["-n"])
    + When(Set(a.attachPython) && !Set(a.noDebug), ["-d", "-dp", NatToString(debugPort), "-dw"])
    + OutputFlags(a)
  }

  /** The switches that choose what the run reports. */
  function OutputFlags(a: LaunchArguments): seq<string> {
    When(Set(a.outputMessages), ["-om"])
    + When(Set(a.outputLog), ["-ol"])
    + When(Set(a.groupOutput), ["-og"])
    + When(Set(a.stopOnEntry), ["-soe"])
  }

  /** `-P <path>` for each path, in order. */
  function PathArgs(paths: seq<string>): seq<string> {
    if paths == [] then [] else PathArgs(paths[..|paths| - 1]) + ["-P", paths[|paths| - 1]]
  }

  /** `-v <name>:<value>` for each variable, in order. */
  function VariableArgs(variables: seq<(string, string)>): seq<string> {
    if variables == [] then []
    else
      var (k, v) := variables[|variables| - 1];
      VariableArgs(variables[..|variables| - 1]) + ["-v", k + ":" + v]
  }

  function OrEmpty<T>(s: Option<seq<T>>): seq<T> {
    if s.Some? then s.value else []
  }

  /** The arguments after "--", which go to Robot Framework. */
  function RobotArgs(a: LaunchArguments): seq<string> {
    OutputDirArgs(a.outputDir)
    + PathArgs(OrEmpty(a.robotPythonPath))
    + VariableArgs(OrEmpty(a.variables))
    + OrEmpty(a.args)
    + TargetArgs(a.target)
  }

  /** `-d <outputDir>` when an output directory is given. */
  function OutputDirArgs(outputDir: Option<string>): seq<string> {
    if outputDir.Some? && outputDir.value != "" then ["-d", outputDir.value] else []
  }

  /** The target, last, when one is given. */
  function TargetArgs(target: Option<string>): seq<string> {
    if target.Some? && target.value != "" then [target.value] else []
  }

  /** The whole command line. */
  function RunArgs(a: LaunchArguments, launcher: string, port: nat, debugPort: nat): seq<string> {
    Head(a, launcher, port) + Flags(a, debugPort) + OrEmpty(a.launcherArgs) + ["--"] + RobotArgs(a)
  }

  /** `_launch`'s construction of `run_args`, step by step. */
  method BuildRunArgs(a: LaunchArguments, launcher: string, port: nat, debugPort: nat) returns (run: seq<string>)
    ensures run == RunArgs(a, launcher, port, debugPort)
  {
    run := LauncherSwitches(a, launcher, port, debugPort);
    run := run + OrEmpty(a.launcherArgs);
    run := run + ["--"];
    ghost var front := run;
    ghost var outputDir := OutputDirArgs(a.outputDir);
    if a.outputDir.Some? && a.outputDir.value != "" {
      run := run + ["-d", a.outputDir.value];
    }
    assert run == front + outputDir;
    ghost var paths := PathArgs(OrEmpty(a.robotPythonPath));
    run := AppendPaths(run, OrEmpty(a.robotPythonPath));
    Assoc(front, outputDir, paths);
    ghost var variables := VariableArgs(OrEmpty(a.variables));
    run := AppendVariables(run, OrEmpty(a.variables));
    Assoc(front, outputDir + paths, variables);
    run := run + OrEmpty(a.args);
    Assoc(front, outputDir + paths + variables, OrEmpty(a.args));
    ghost var target := TargetArgs(a.target);
    ghost var beforeTarget := run;
    if a.target.Some? && a.target.value != "" {
      run := run + [a.target.value];
    }
    assert run == beforeTarget + target;
    Assoc(front, outputDir + paths + variables + OrEmpty(a.args), target);
  }

  /** The interpreter, the launcher and the launcher's own switches. */
  method LauncherSwitches(a: LaunchArguments, launcher: string, port: nat, debugPort: nat) returns (run: seq<string>)
    ensures run == Head(a, launcher, port) + Flags(a, debugPort)
  {
    run := [a.python, "-u", launcher];
    run := run + ["-p", NatToString(port)];
    run := run + ["-w", "-t", IntToString(ConnectTimeout(a))];
    ghost var head := run;
    assert head == Head(a, launcher, port);
    ghost var w1 := When(Set(a.noDebug), ["-n"]);
    ghost var w2 := When(Set(a.attachPython) && !Set(a.noDebug), ["-d", "-dp", NatToString(debugPort), "-dw"]);
    ghost var w3 := When(Set(a.outputMessages), ["-om"]);
    ghost var w4 := When(Set(a.outputLog), ["-ol"]);
    ghost var w5 := When(Set(a.groupOutput), ["-og"]);
    ghost var w6 := When(Set(a.stopOnEntry), ["-soe"]);
    run := AppendIf(run, Set(a.noDebug), ["-n"]);
    run := AppendIf(run, Set(a.attachPython) && !Set(a.noDebug), ["-d", "-dp", NatToString(debugPort), "-dw"]);
    Assoc(head, w1, w2);
    ghost var before := run;
    run := AppendIf(run, Set(a.outputMessages), ["-om"]);
    run := AppendIf(run, Set(a.outputLog), ["-ol"]);
    Assoc(before, w3, w4);
    run := AppendIf(run, Set(a.groupOutput), ["-og"]);
    Assoc(before, w3 + w4, w5);
    run := AppendIf(run, Set(a.stopOnEntry), ["-soe"]);
    Assoc(before, w3 + w4 + w5, w6);
    assert OutputFlags(a) == w3 + w4 + w5 + w6;
    Assoc(head, w1 + w2, OutputFlags(a));
  }

  /** One `if ...: run_args += [...]` step. */
  method AppendIf(before: seq<string>, b: bool, s: seq<string>) returns (run: seq<string>)
    ensures run == before + When(b, s)
  {
    run := before;
    if b {
      run := run + s;
    }
  }

  lemma Assoc(x: seq<string>, y: seq<string>, z: seq<string>)
    ensures x + y + z == x + (y + z)
  {
  }

  /** Appends `-P <path>` for each path. */
  method AppendPaths(before: seq<string>, paths: seq<string>) returns (run: seq<string>)
    ensures run == before + PathArgs(paths)
  {
    run := before;
    var i := 0;
    while i < |paths|
      invariant i <= |paths|
      invariant run == before + PathArgs(paths[..i])
    {
      assert paths[..i + 1][..i] == paths[..i];
      run := run + ["-P", paths[i]];
      i := i + 1;
    }
    assert paths[..i] == paths;
  }

  /** Appends `-v <name>:<value>` for each variable. */
  method AppendVariables(before: seq<string>, variables: seq<(string, string)>) returns (run: seq<string>)
    ensures run == before + VariableArgs(variables)
  {
    run := before;
    var j := 0;
    while j < |variables|
      invariant j <= |variables|
      invariant run == before + VariableArgs(variables[..j])
    {
      assert variables[..j + 1][..j] == variables[..j];
      var (k, v) := variables[j];
      run := run + ["-v", k + ":" + v];
      j := j + 1;
    }
    assert variables[..j] == variables;
  }

  /** Each path becomes a "-P" followed by the path, in order. */
  lemma {:induction false} PathArgsPairs(paths: seq<string>)
    ensures |PathArgs(paths)| == 2 * |paths|
    ensures forall i :: 0 <= i < |paths| ==> PathArgs(paths)[2 * i] == "-P" && PathArgs(paths)[2 * i + 1] == paths[i]
  {
    if paths != [] {
      PathArgsPairs(paths[..|paths| - 1]);
    }
  }

  /** Each variable becomes a "-v" followed by `name:value`, in order. */
  lemma {:induction false} VariableArgsPairs(variables: seq<(string, string)>)
    ensures |VariableArgs(variables)| == 2 * |variables|
    ensures forall i :: 0 <= i < |variables| ==>
      VariableArgs(variables)[2 * i] == "-v" && VariableArgs(variables)[2 * i + 1] == variables[i].0 + ":" + variables[i].1
  {
    if variables != [] {
      VariableArgsPairs(variables[..|variables| - 1]);
    }
  }

  /** The command line starts with the interpreter, the launcher, its port
      and its timeout; "--" follows the launcher's switches and extra
      arguments; a target comes last. */
  lemma RunArgsLayout(a: LaunchArguments, launcher: string, port: nat, debugPort: nat)
    ensures var run := RunArgs(a, launcher, port, debugPort);
      && |run| > 8
      && run[..8] == [a.python, "-u", launcher, "-p", NatToString(port), "-w", "-t", IntToString(ConnectTimeout(a))]
      && run[8 + |Flags(a, debugPort)| + |OrEmpty(a.launcherArgs)|] == "--"
      && (a.target.Some? && a.target.value != "" ==> run[|run| - 1] == a.target.value)
  {
    var run := RunArgs(a, launcher, port, debugPort);
    var head := Head(a, launcher, port);
    var front := head + Flags(a, debugPort) + OrEmpty(a.launcherArgs);
    var robot := RobotArgs(a);
    assert run == front + ["--"] + robot;
    assert |head| == 8;
    assert run[..8] == head by {
      forall i | 0 <= i < 8
        ensures run[i] == head[i]
      {
        assert run[i] == front[i];
      }
    }
    assert run[|front|] == "--";
    if a.target.Some? && a.target.value != "" {
      var middle := OutputDirArgs(a.outputDir) + PathArgs(OrEmpty(a.robotPythonPath))
        + VariableArgs(OrEmpty(a.variables)) + OrEmpty(a.args);
      assert robot == middle + [a.target.value];
      assert run[|run| - 1] == robot[|robot| - 1];
    }
  }

  /** "-n" appears exactly without debugging, the Python debugger's port
      switch exactly when attaching while debugging. */
  lemma DebugFlagsPresent(a: LaunchArguments, debugPort: nat)
    ensures "-n" in Flags(a, debugPort) <==> Set(a.noDebug)
    ensures "-dp" in Flags(a, debugPort) <==> Set(a.attachPython) && !Set(a.noDebug)
  {
    var p := NatToString(debugPort);
    assert p != "-n" && p != "-dp" by {
      assert IsDigit(p[0]);
    }
    var noDebug := When(Set(a.noDebug), ["-n"]);
    var attach := When(Set(a.attachPython) && !Set(a.noDebug), ["-d", "-dp", p, "-dw"]);
    var rest := OutputFlags(a);
    assert Flags(a, debugPort) == noDebug + attach + rest;
    assert "-n" !in attach && "-n" !in rest;
    assert "-dp" !in noDebug && "-dp" !in rest;
  }

  /** Each output switch appears exactly when its option is set. */
  lemma OutputFlagsPresent(a: LaunchArguments, debugPort: nat)
    ensures "-om" in Flags(a, debugPort) <==> Set(a.outputMessages)
    ensures "-ol" in Flags(a, debugPort) <==> Set(a.outputLog)
    ensures "-og" in Flags(a, debugPort) <==> Set(a.groupOutput)
    ensures "-soe" in Flags(a, debugPort) <==> Set(a.stopOnEntry)
  {
    var p := NatToString(debugPort);
    assert p != "-om" && p != "-ol" && p != "-og" && p != "-soe" by {
      assert IsDigit(p[0]);
    }
    var debug := When(Set(a.noDebug), ["-n"]) + When(Set(a.attachPython) && !Set(a.noDebug), ["-d", "-dp", p, "-dw"]);
    assert Flags(a, debugPort) == debug + OutputFlags(a);
    assert "-om" !in debug && "-ol" !in debug && "-og" !in debug && "-soe" !in debug;
  }

  /** The environment passed on: `None` becomes the empty string, a missing
      environment an empty one. */
  function Environment(env: Option<map<string, Option<string>>>): (r: map<string, string>)
    ensures env.None? ==> r == map[]
    ensures env.Some? ==> r.Keys == env.value.Keys
    ensures env.Some? ==> forall k :: k in r ==> r[k] == (if env.value[k].None? then "" else env.value[k].value)
  {
    if env.None? || env.value == map[] then map[]
    else map k | k in env.value :: if env.value[k].None? then "" else env.value[k].value
  }

  datatype TerminalKind = Integrated | External

  /** Where the run is started. */
  datatype Console = InTerminal(kind: TerminalKind) | Subprocess

  /** The console choice: the two terminals are asked of the client, the
      internal console or none spawns a subprocess, anything else fails. */
  function ConsoleFor(console: Option<string>): (r: Result<Console, string>)
    ensures r == Success(InTerminal(Integrated)) <==> console == Some("integratedTerminal")
    ensures r == Success(InTerminal(External)) <==> console == Some("externalTerminal")
    ensures r == Success(Subprocess) <==> console.None? || console == Some("internalConsole")
    ensures r.Failure? ==> console.Some? && r.error == "Unknown console type \"" + console.value + "\"."
  {
    match console
    case None => Success(Subprocess)
    case Some(c) =>
      if c == "integratedTerminal" then Success(InTerminal(Integrated))
      else if c == "externalTerminal" then Success(InTerminal(External))
      else if c == "internalConsole" then Success(Subprocess)
      else Failure("Unknown console type \"" + c + "\".")
  }

  /** `OutputProtocol.pipe_data_received`: the category of the run's output. */
  function OutputCategory(fd: int): (r: Option<string>)
    ensures r == Some("stdout") <==> fd == 1
    ensures r == Some("stderr") <==> fd == 2
    ensures r.None? <==> fd != 1 && fd != 2
  {
    if fd == 1 then Some("stdout") else if fd == 2 then Some("stderr") else None
  }

  /** The exception filters `initialize` advertises, with their defaults. */
  const ExceptionFilters: seq<(string, bool)> := [("failed_keyword", true), ("failed_test", false), ("failed_suite", false)]

  /** The advertised filters are exactly the ones the debugger accepts. */
  lemma AdvertisedFiltersAccepted()
    ensures forall j :: 0 <= j < |ExceptionFilters| ==> ExceptionFilters[j].0 in Dbg.SupportedFilters
    ensures forall f :: f in Dbg.SupportedFilters ==> exists j :: 0 <= j < |ExceptionFilters| && ExceptionFilters[j].0 == f
  {
    forall f | f in Dbg.SupportedFilters
      ensures exists j :: 0 <= j < |ExceptionFilters| && ExceptionFilters[j].0 == f
    {
      if f == "failed_keyword" {
        assert ExceptionFilters[0].0 == f;
      } else if f == "failed_test" {
        assert ExceptionFilters[1].0 == f;
      } else {
        assert ExceptionFilters[2].0 == f;
      }
    }
  }

  /** The launched debugger's client, once `launch` has created it. */
  datatype Client = Client(connected: bool, terminated: bool)

  /** `connected`: a client exists and is connected. */
  predicate Connected(client: Option<Client>) {
    client.Some? && client.value.connected
  }

  /** What a command does. */
  datatype Action =
    | Forward(command: string)
    | SendTerminated
    | Nothing
    | Reply(outcome: Dap.Outcome)

  /** `_disconnect`: forwarded while connected (unless already terminated),
      otherwise the client is told the run has terminated. */
  function Disconnect(client: Option<Client>): (r: Action)
    ensures !Connected(client) <==> r == SendTerminated
    ensures r == Forward("disconnect") <==> Connected(client) && !client.value.terminated
    ensures Connected(client) && client.value.terminated ==> r == Nothing
  {
    if Connected(client) then (if !client.value.terminated then Forward("disconnect") else Nothing)
    else SendTerminated
  }

  /** `_terminate` as written: it asks `self.client.connected`, and reading
      `client` raises when no client exists yet. */
  function TerminateAsWritten(client: Option<Client>): (r: Result<Action, string>)
    ensures client.None? ==> r == Failure("Client not defined.")
    ensures client.Some? ==> r == Success(Terminate(client))
  {
    if client.None? then Failure("Client not defined.")
    else if client.value.connected then Success(Forward("terminate"))
    else Success(SendTerminated)
  }

  /** `_terminate` as evidently intended: the same connection test as
      `_disconnect`. */
  function Terminate(client: Option<Client>): (r: Action)
    ensures !Connected(client) <==> r == SendTerminated
    ensures Connected(client) <==> r == Forward("terminate")
  {
    if Connected(client) then Forward("terminate") else SendTerminated
  }

  /** Before `launch` has connected, `disconnect` reports termination but
      `terminate` raises. */
  lemma TerminateRaisesWithoutClient()
    ensures Disconnect(None) == SendTerminated
    ensures TerminateAsWritten(None).Failure?
    ensures Terminate(None) == SendTerminated
  {
  }

  /** `handle_unknown_command`: forwarded while connected, otherwise
      answered as an unknown command. */
  function UnknownCommand(client: Option<Client>, command: string): (r: Action)
    ensures Connected(client) <==> r == Forward(command)
    ensures !Connected(client) ==> r == Reply(Dap.UnknownCommand(command))
  {
    if Connected(client) then Forward(command) else Reply(Dap.UnknownCommand(command))
  }
}
