/**
 * The packaging orchestrator: validation, the optional jlink stage, the jpackage
 * stage, and how their log lines and failures become a `PackagingResult`.
 *
 * The two tools and the file system are inputs (`PackagingEnvironment`). A run's
 * observable effects are gathered in a `RunLog`: the `logs` list the result carries,
 * the lines handed to the log consumer, and the command of every process started.
 * An exception is a `Failure` holding its message, `None` standing for a null message.
 */
module PackagingServices {
  import opened Wrappers
  import opened JavaStrings
  import opened ToolRuns
  import opened PackageConfigurations
  import opened PackagingResults

  /** What a packaging run observes of the outside world. */
  datatype PackagingEnvironment = PackagingEnvironment(
    existing: set<Path>,                   // the paths `Files.exists` reports
    createDirectoriesError: Option<string>, // the message `createDirectories` fails with, if it fails
    jlink: ToolRun,
    runtimeImageExists: bool,              // whether `<output>/runtime` exists once jlink is done
    jpackage: ToolRun)

  const JLinkStartMessage := "Creating custom runtime with jlink..."
  const JPackageStartMessage := "Packaging application with jpackage..."
  const PackagedMessage := "Application packaged successfully!"
  const CheckLogsMessage := "Packaging failed. Check logs for details."

  /** The message of the NullPointerException a JAR path without a parent raises. */
  const NoParentMessage :=
    "Cannot invoke \"java.nio.file.Path.toString()\" because the return value of \"java.nio.file.Path.getParent()\" is null"

  /** `e.getMessage()` as string concatenation renders it. */
  function MessageText(message: Option<string>): string {
    if message.Some? then message.value else "null"
  }

  // ---------------------------------------------------------------------------
  // Observable effects of a run
  // ---------------------------------------------------------------------------

  /** The effects of a run so far, as a value. */
  datatype Trace = Trace(logs: seq<string>, streamed: seq<string>, started: seq<seq<string>>)
  {
    /** `logs.add(line)`. */
    function Log(line: string): Trace { this.(logs := logs + [line]) }
    /** `logConsumer.accept(line)`. */
    function Stream(line: string): Trace { this.(streamed := streamed + [line]) }
    /** The same line to the list and to the consumer. */
    function Emit(line: string): Trace { this.(logs := logs + [line], streamed := streamed + [line]) }
    function EmitAll(lines: seq<string>): Trace { this.(logs := logs + lines, streamed := streamed + lines) }
    /** `new ProcessBuilder(command).start()`. */
    function Start(command: seq<string>): Trace { this.(started := started + [command]) }
  }

  const NoEffects := Trace([], [], [])

  /** The mutable side of a run: the `logs` list, the consumer, the processes started. */
  class RunLog {
    var logs: seq<string>
    var streamed: seq<string>
    var started: seq<seq<string>>

    constructor()
      ensures Snapshot() == NoEffects
    {
      logs, streamed, started := [], [], [];
    }

    function Snapshot(): Trace
      reads this
    {
      Trace(logs, streamed, started)
    }

    method Emit(line: string)
      modifies this
      ensures Snapshot() == old(Snapshot()).Emit(line)
    {
      logs := logs + [line];
      streamed := streamed + [line];
    }
  }

  /** What a stage leaves behind: its effects, and its value or the message it threw. */
  datatype Step<T> = Step(trace: Trace, outcome: Result<T, Option<string>>)

  // ---------------------------------------------------------------------------
  // Validation
  // ---------------------------------------------------------------------------

  const AppNameRequired := "Application name is required"
  const MainClassRequired := "Main class is required"
  const OutputDirectoryRequired := "Output directory is required"

  function JarMissing(config: PackageConfiguration): string {
    "JAR file does not exist: " + PathText(config.jarFile)
  }

  predicate JarExists(config: PackageConfiguration, existing: set<Path>) {
    config.jarFile.Some? && config.jarFile.value in existing
  }

  /** Every check `validateConfiguration` makes passes. */
  predicate Valid(config: PackageConfiguration, existing: set<Path>) {
    JarExists(config, existing) && HasText(config.appName) && HasText(config.mainClass)
    && config.outputDirectory.Some?
  }

  /** `validateConfiguration`: the message of the first check that fails, if any. */
  function ValidationError(config: PackageConfiguration, existing: set<Path>): (r: Option<string>)
    ensures r.None? <==> Valid(config, existing)
    ensures r.Some? ==> r.value in {JarMissing(config), AppNameRequired, MainClassRequired, OutputDirectoryRequired}
  {
    if !JarExists(config, existing) then Some(JarMissing(config))
    else if !HasText(config.appName) then Some(AppNameRequired)
    else if !HasText(config.mainClass) then Some(MainClassRequired)
    else if config.outputDirectory.None? then Some(OutputDirectoryRequired)
    else None
  }

  /** The checks run in a fixed order and the first one to fail names the error. */
  lemma ValidationOrder(config: PackageConfiguration, existing: set<Path>)
    ensures !JarExists(config, existing) ==> ValidationError(config, existing) == Some(JarMissing(config))
    ensures ValidationError(config, existing) == Some(AppNameRequired)
            <==> JarExists(config, existing) && !HasText(config.appName)
    ensures ValidationError(config, existing) == Some(MainClassRequired)
            <==> JarExists(config, existing) && HasText(config.appName) && !HasText(config.mainClass)
    ensures ValidationError(config, existing) == Some(OutputDirectoryRequired)
            <==> JarExists(config, existing) && HasText(config.appName) && HasText(config.mainClass)
                 && config.outputDirectory.None?
  {
    // The four messages start with different letters.
    assert JarMissing(config)[0] == 'J';
  }

  // ---------------------------------------------------------------------------
  // Tool output
  // ---------------------------------------------------------------------------

  function Prefixed(prefix: string, lines: seq<string>): (r: seq<string>)
    ensures |r| == |lines|
  {
    seq(|lines|, i requires 0 <= i < |lines| => prefix + lines[i])
  }

  /** What a tool's two streams add to the logs: all of stdout, then all of stderr. */
  function ToolLines(tool: string, stdout: seq<string>, stderr: seq<string>): (r: seq<string>)
    ensures |r| == |stdout| + |stderr|
    ensures forall i :: 0 <= i < |stdout| ==> r[i] == tool + ": " + stdout[i]
    ensures forall i :: 0 <= i < |stderr| ==> r[|stdout| + i] == tool + " ERROR: " + stderr[i]
  {
    Prefixed(tool + ": ", stdout) + Prefixed(tool + " ERROR: ", stderr)
  }

  /** The two reader loops: each line goes to the logs and to the consumer, stdout first. */
  method DrainToolOutput(tool: string, stdout: seq<string>, stderr: seq<string>, run: RunLog)
    modifies run
    ensures run.Snapshot() == old(run.Snapshot()).EmitAll(ToolLines(tool, stdout, stderr))
  {
    var before := run.Snapshot();
    var i := 0;
    while i < |stdout|
      invariant 0 <= i <= |stdout|
      invariant run.Snapshot() == before.EmitAll(Prefixed(tool + ": ", stdout[..i]))
    {
      assert Prefixed(tool + ": ", stdout[..i + 1]) == Prefixed(tool + ": ", stdout[..i]) + [tool + ": " + stdout[i]];
      run.Emit(tool + ": " + stdout[i]);
      i := i + 1;
    }
    assert stdout[..i] == stdout;
    var j := 0;
    while j < |stderr|
      invariant 0 <= j <= |stderr|
      invariant run.Snapshot() == before.EmitAll(ToolLines(tool, stdout, stderr[..j]))
    {
      assert Prefixed(tool + " ERROR: ", stderr[..j + 1])
          == Prefixed(tool + " ERROR: ", stderr[..j]) + [tool + " ERROR: " + stderr[j]];
      run.Emit(tool + " ERROR: " + stderr[j]);
      j := j + 1;
    }
    assert stderr[..j] == stderr;
  }

  // ---------------------------------------------------------------------------
  // jlink
  // ---------------------------------------------------------------------------

  /** The jlink command line. */
  function JLinkCommand(modules: seq<string>, runtimePath: Path): (r: seq<string>)
    ensures |r| == 8 && r[0] == "jlink" && r[1] == "--add-modules" && r[3] == "--output"
    ensures r[2] == Join(",", modules) && r[4] == runtimePath.ToString()
    ensures r[5..] == ["--compress=2", "--no-header-files", "--no-man-pages"]
  {
    ["jlink", "--add-modules", Join(",", modules), "--output", runtimePath.ToString(),
     "--compress=2", "--no-header-files", "--no-man-pages"]
  }

  function RuntimePath(config: PackageConfiguration): Path
    requires config.outputDirectory.Some?
  {
    config.outputDirectory.value.Resolve("runtime")
  }

  /** `createCustomRuntime`: its effects, and the runtime path or the message it threw. */
  function JLinkStage(config: PackageConfiguration, env: PackagingEnvironment, t: Trace): Step<Path>
    requires config.outputDirectory.Some?
  {
    var t1 := t.Emit(JLinkStartMessage);
    var runtimePath := RuntimePath(config);
    if config.requiredModules.None? then Step(t1, Failure(None))
    else
      var t2 := t1.Start(JLinkCommand(config.requiredModules.value, runtimePath));
      match env.jlink
      case SpawnFailed(message) => Step(t2, Failure(Some(message)))
      case Ran(stdout, stderr, exitCode) =>
        var t3 := t2.EmitAll(ToolLines("jlink", stdout, stderr));
        if exitCode != 0 then
          Step(t3, Failure(Some("jlink failed with exit code: " + IntToString(exitCode))))
        else
          Step(t3.Log("Custom runtime created successfully at: " + runtimePath.ToString())
                 .Stream("Custom runtime created successfully"),
               Success(runtimePath))
  }

  method CreateCustomRuntime(config: PackageConfiguration, env: PackagingEnvironment, run: RunLog)
    returns (r: Result<Path, Option<string>>)
    requires config.outputDirectory.Some?
    modifies run
    ensures Step(run.Snapshot(), r) == JLinkStage(config, env, old(run.Snapshot()))
  {
    run.Emit(JLinkStartMessage);
    var runtimePath := config.outputDirectory.value.Resolve("runtime");
    if config.requiredModules.None? {
      // String.join rejects a null collection with a message-less NullPointerException.
      return Failure(None);
    }
    var command: seq<string> := [];
    command := command + ["jlink"];
    command := command + ["--add-modules"];
    command := command + [Join(",", config.requiredModules.value)];
    command := command + ["--output"];
    command := command + [runtimePath.ToString()];
    command := command + ["--compress=2"];
    command := command + ["--no-header-files"];
    command := command + ["--no-man-pages"];
    assert command == JLinkCommand(config.requiredModules.value, runtimePath);
    run.started := run.started + [command];
    match env.jlink {
      case SpawnFailed(message) =>
        return Failure(Some(message));
      case Ran(stdout, stderr, exitCode) =>
        DrainToolOutput("jlink", stdout, stderr, run);
        if exitCode != 0 {
          return Failure(Some("jlink failed with exit code: " + IntToString(exitCode)));
        }
        run.logs := run.logs + ["Custom runtime created successfully at: " + runtimePath.ToString()];
        run.streamed := run.streamed + ["Custom runtime created successfully"];
        return Success(runtimePath);
    }
  }

  // ---------------------------------------------------------------------------
  // jpackage
  // ---------------------------------------------------------------------------

  /** The fields `packageWithJPackage` dereferences; validation guarantees them. */
  predicate Dereferenceable(config: PackageConfiguration) {
    config.jarFile.Some? && config.appName.Some? && config.mainClass.Some?
    && config.outputDirectory.Some?
  }

  /** The five pairs every jpackage command starts with. */
  function MandatoryArgs(config: PackageConfiguration, input: Path): seq<string>
    requires Dereferenceable(config) && |config.jarFile.value.names| >= 1
  {
    var jar := config.jarFile.value;
    ["jpackage",
     "--input", input.ToString(),
     "--main-jar", jar.names[|jar.names| - 1],
     "--main-class", config.mainClass.value,
     "--name", config.appName.value,
     "--dest", config.outputDirectory.value.ToString()]
  }

  /** An optional flag, its value, and whether the command carries it. */
  datatype OptionalArg = OptionalArg(passed: bool, flag: string, value: string)

  /** The optional flags in the order they are considered. */
  const OptionalFlags: seq<string> :=
    ["--app-version", "--icon", "--vendor", "--description", "--copyright",
     "--type", "--runtime-image", "--java-options", "--arguments"]

  /** The value of an optional text field; only read when the field is set. */
  function OrEmpty(s: Option<string>): string {
    if s.Some? then s.value else ""
  }

  function TypeCode(format: Option<OutputFormat>): string {
    if format.Some? then format.value.JPackageType() else ""
  }

  /** `String.join(" ", list)`; only read when the list is set. */
  function SpaceJoined(xs: Option<seq<string>>): string {
    if xs.Some? then Join(" ", xs.value) else ""
  }

  // The nine optional flags, each with the condition under which it is passed.

  function VersionArg(config: PackageConfiguration): OptionalArg {
    OptionalArg(HasText(config.version), "--app-version", OrEmpty(config.version))
  }

  /** The icon is passed only when the file exists. */
  function IconArg(config: PackageConfiguration, env: PackagingEnvironment): OptionalArg {
    OptionalArg(config.iconFile.Some? && config.iconFile.value in env.existing, "--icon", PathText(config.iconFile))
  }

  function VendorArg(config: PackageConfiguration): OptionalArg {
    OptionalArg(HasText(config.vendor), "--vendor", OrEmpty(config.vendor))
  }

  function DescriptionArg(config: PackageConfiguration): OptionalArg {
    OptionalArg(HasText(config.description), "--description", OrEmpty(config.description))
  }

  function CopyrightArg(config: PackageConfiguration): OptionalArg {
    OptionalArg(HasText(config.copyright), "--copyright", OrEmpty(config.copyright))
  }

  /** No `--type` for the app image, which is jpackage's default. */
  function TypeArg(config: PackageConfiguration): OptionalArg {
    OptionalArg(config.outputFormat.Some? && config.outputFormat.value != AppImage, "--type",
                TypeCode(config.outputFormat))
  }

  /** The runtime jlink built, when there is one and it exists. */
  function RuntimeImageArg(runtimePath: Option<Path>, env: PackagingEnvironment): OptionalArg {
    OptionalArg(runtimePath.Some? && env.runtimeImageExists, "--runtime-image", PathText(runtimePath))
  }

  function JavaOptionsArg(config: PackageConfiguration): OptionalArg {
    OptionalArg(config.jvmArgs.Some? && |config.jvmArgs.value| > 0, "--java-options", SpaceJoined(config.jvmArgs))
  }

  function ArgumentsArg(config: PackageConfiguration): OptionalArg {
    OptionalArg(config.appArgs.Some? && |config.appArgs.value| > 0, "--arguments", SpaceJoined(config.appArgs))
  }

  /** The nine optional flags in the order `packageWithJPackage` considers them. */
  function OptionalArgs(config: PackageConfiguration, runtimePath: Option<Path>,
                        env: PackagingEnvironment): seq<OptionalArg>
  {
    [VersionArg(config), IconArg(config, env), VendorArg(config), DescriptionArg(config),
     CopyrightArg(config), TypeArg(config), RuntimeImageArg(runtimePath, env),
     JavaOptionsArg(config), ArgumentsArg(config)]
  }

  /** The flag and its value when included, nothing otherwise. */
  function Pair(a: OptionalArg): seq<string> {
    if a.passed then [a.flag, a.value] else []
  }

  /** `prefix` followed by the pairs of the first `n` optional flags that are passed. */
  function WithOptions(prefix: seq<string>, args: seq<OptionalArg>, n: nat): (r: seq<string>)
    requires n <= |args|
    ensures |r| == |prefix| + Offset(args, n) && r[..|prefix|] == prefix
  {
    if n == 0 then prefix else WithOptions(prefix, args, n - 1) + Pair(args[n - 1])
  }

  /** One `if` block of `packageWithJPackage`: the flag and its value are added when the condition holds. */
  method AddOption(command: seq<string>, arg: OptionalArg) returns (r: seq<string>)
    ensures r == command + Pair(arg)
  {
    r := command;
    if arg.passed {
      r := r + [arg.flag];
      r := r + [arg.value];
    }
  }

  /** Where the pair of `args[k]` starts among the optional words: two per earlier included flag. */
  function Offset(args: seq<OptionalArg>, k: nat): (r: nat)
    requires k <= |args|
    ensures r % 2 == 0
  {
    if k == 0 then 0 else Offset(args, k - 1) + (if args[k - 1].passed then 2 else 0)
  }

  /** The jpackage command, or the NullPointerException a JAR without a parent raises. */
  function JPackageCommand(config: PackageConfiguration, runtimePath: Option<Path>,
                           env: PackagingEnvironment): Result<seq<string>, Option<string>>
    requires Dereferenceable(config)
  {
    var input := config.jarFile.value.Parent();
    if input.None? then Failure(Some(NoParentMessage))
    else
      var args := OptionalArgs(config, runtimePath, env);
      Success(WithOptions(MandatoryArgs(config, input.value), args, |args|))
  }

  /** Builds the jpackage command by successive appends, as `packageWithJPackage` does. */
  method BuildJPackageCommand(config: PackageConfiguration, runtimePath: Option<Path>,
                              env: PackagingEnvironment)
    returns (r: Result<seq<string>, Option<string>>)
    requires Dereferenceable(config)
    ensures r == JPackageCommand(config, runtimePath, env)
  {
    var jar := config.jarFile.value;
    var input := jar.Parent();
    if input.None? {
      return Failure(Some(NoParentMessage));
    }
    var command: seq<string> := [];
    command := command + ["jpackage"];
    command := command + ["--input", input.value.ToString()];
    command := command + ["--main-jar", jar.names[|jar.names| - 1]];
    command := command + ["--main-class", config.mainClass.value];
    command := command + ["--name", config.appName.value];
    command := command + ["--dest", config.outputDirectory.value.ToString()];
    assert command == MandatoryArgs(config, input.value);
    command := AddOptionalArgs(command, config, runtimePath, env);
    return Success(command);
  }

  /** The nine `if` blocks of `packageWithJPackage`, in order. */
  method AddOptionalArgs(mandatory: seq<string>, config: PackageConfiguration, runtimePath: Option<Path>,
                         env: PackagingEnvironment) returns (command: seq<string>)
    ensures command == WithOptions(mandatory, OptionalArgs(config, runtimePath, env), 9)
  {
    ghost var args := OptionalArgs(config, runtimePath, env);
    command := mandatory;
    command := AddOption(command, VersionArg(config));
    assert command == WithOptions(mandatory, args, 1);
    command := AddOption(command, IconArg(config, env));
    assert command == WithOptions(mandatory, args, 2);
    command := AddOption(command, VendorArg(config));
    assert command == WithOptions(mandatory, args, 3);
    command := AddOption(command, DescriptionArg(config));
    assert command == WithOptions(mandatory, args, 4);
    command := AddOption(command, CopyrightArg(config));
    assert command == WithOptions(mandatory, args, 5);
    command := AddOption(command, TypeArg(config));
    assert command == WithOptions(mandatory, args, 6);
    command := AddOption(command, RuntimeImageArg(runtimePath, env));
    assert command == WithOptions(mandatory, args, 7);
    command := AddOption(command, JavaOptionsArg(config));
    assert command == WithOptions(mandatory, args, 8);
    command := AddOption(command, ArgumentsArg(config));
  }

  /** `packageWithJPackage`: its effects, and whether jpackage succeeded or the message it threw. */
  function JPackageStage(config: PackageConfiguration, runtimePath: Option<Path>,
                         env: PackagingEnvironment, t: Trace): Step<bool>
    requires Dereferenceable(config)
  {
    var t1 := t.Emit(JPackageStartMessage);
    match JPackageCommand(config, runtimePath, env)
    case Failure(message) => Step(t1, Failure(message))
    case Success(command) =>
      var t2 := t1.Start(command);
      match env.jpackage
      case SpawnFailed(message) => Step(t2, Failure(Some(message)))
      case Ran(stdout, stderr, exitCode) =>
        var t3 := t2.EmitAll(ToolLines("jpackage", stdout, stderr));
        if exitCode == 0 then Step(t3.Emit(PackagedMessage), Success(true))
        else Step(t3.Emit("jpackage failed with exit code: " + IntToString(exitCode)), Success(false))
  }

  method PackageWithJPackage(config: PackageConfiguration, runtimePath: Option<Path>,
                             env: PackagingEnvironment, run: RunLog)
    returns (r: Result<bool, Option<string>>)
    requires Dereferenceable(config)
    modifies run
    ensures Step(run.Snapshot(), r) == JPackageStage(config, runtimePath, env, old(run.Snapshot()))
  {
    run.Emit(JPackageStartMessage);
    var built := BuildJPackageCommand(config, runtimePath, env);
    if built.Failure? {
      return Failure(built.error);
    }
    run.started := run.started + [built.value];
    match env.jpackage {
      case SpawnFailed(message) =>
        return Failure(Some(message));
      case Ran(stdout, stderr, exitCode) =>
        DrainToolOutput("jpackage", stdout, stderr, run);
        if exitCode == 0 {
          run.Emit(PackagedMessage);
          return Success(true);
        } else {
          run.Emit("jpackage failed with exit code: " + IntToString(exitCode));
          return Success(false);
        }
    }
  }

  // ---------------------------------------------------------------------------
  // packageApplication
  // ---------------------------------------------------------------------------

  /** The result of a run, what the consumer received, and the commands started. */
  datatype RunOutcome = RunOutcome(result: PackagingResult, streamed: seq<string>,
                                   started: seq<seq<string>>)

  /** The catch block: the message is logged and reported. */
  function Caught(message: Option<string>, t: Trace, config: PackageConfiguration,
                  elapsedMs: int): (r: RunOutcome)
    ensures !r.result.success
    ensures r.result.configuration == config && r.result.executionTimeMs == elapsedMs
    ensures r.result.outputPath.Some? <==> r.result.success
  {
    var text := MessageText(message);
    RunOutcome(FailureResult("Packaging failed: " + text, t.logs + ["ERROR: " + text], elapsedMs, config),
               t.streamed, t.started)
  }

  /** The effects once the output directory is in place, or the message `createDirectories` threw. */
  function DirectoryStage(config: PackageConfiguration, env: PackagingEnvironment): Step<()>
    requires config.outputDirectory.Some?
  {
    var out := config.outputDirectory.value;
    if out in env.existing then Step(NoEffects, Success(()))
    else if env.createDirectoriesError.Some? then Step(NoEffects, Failure(env.createDirectoriesError))
    else Step(NoEffects.Log("Created output directory: " + out.ToString()), Success(()))
  }

  /** `packageApplication` on a run that took `elapsedMs` milliseconds. */
  function Run(config: PackageConfiguration, env: PackagingEnvironment, elapsedMs: int): (r: RunOutcome)
    ensures r.result.configuration == config && r.result.executionTimeMs == elapsedMs
    ensures r.result.outputPath.Some? <==> r.result.success
  {
    match ValidationError(config, env.existing)
    case Some(reason) => Caught(Some(reason), NoEffects, config, elapsedMs)
    case None => RunValid(config, env, elapsedMs)
  }

  /** The run once validation has passed: the output directory, then jlink when enabled. */
  function RunValid(config: PackageConfiguration, env: PackagingEnvironment, elapsedMs: int): (r: RunOutcome)
    requires Valid(config, env.existing)
    ensures r.result.configuration == config && r.result.executionTimeMs == elapsedMs
    ensures r.result.outputPath.Some? <==> r.result.success
  {
    var directory := DirectoryStage(config, env);
    if directory.outcome.Failure? then Caught(directory.outcome.error, directory.trace, config, elapsedMs)
    else if !config.enableJLink then Finish(config, None, env, directory.trace, elapsedMs)
    else
      var jlink := JLinkStage(config, env, directory.trace);
      if jlink.outcome.Failure? then Caught(jlink.outcome.error, jlink.trace, config, elapsedMs)
      else Finish(config, Some(jlink.outcome.value), env, jlink.trace, elapsedMs)
  }

  /** The jpackage stage and the result it leads to. */
  function Finish(config: PackageConfiguration, runtimePath: Option<Path>, env: PackagingEnvironment,
                  t: Trace, elapsedMs: int): (r: RunOutcome)
    requires Dereferenceable(config)
    ensures r.result.configuration == config && r.result.executionTimeMs == elapsedMs
    ensures r.result.outputPath.Some? <==> r.result.success
  {
    var jpackage := JPackageStage(config, runtimePath, env, t);
    var u := jpackage.trace;
    match jpackage.outcome
    case Failure(message) => Caught(message, u, config, elapsedMs)
    case Success(packaged) =>
      if packaged then
        RunOutcome(SuccessResult(PackagedMessage, config.outputDirectory.value.ToString(),
                                 u.logs, elapsedMs, config), u.streamed, u.started)
      else
        RunOutcome(FailureResult(CheckLogsMessage, u.logs, elapsedMs, config), u.streamed, u.started)
  }

  /**
   * `packageApplication`. The logs list is the run's own; what the consumer received
   * and the commands started are returned beside the result.
   */
  method PackageApplication(config: PackageConfiguration, env: PackagingEnvironment, elapsedMs: int)
    returns (result: PackagingResult, streamed: seq<string>, started: seq<seq<string>>)
    ensures RunOutcome(result, streamed, started) == Run(config, env, elapsedMs)
  {
    var run := new RunLog();
    var fault: Option<Option<string>> := None;
    var packaged := false;
    var reason := ValidationError(config, env.existing);
    if reason.Some? {
      fault := Some(reason);
    } else {
      var out := config.outputDirectory.value;
      if out !in env.existing {
        if env.createDirectoriesError.Some? {
          fault := Some(env.createDirectoriesError);
        } else {
          run.logs := run.logs + ["Created output directory: " + out.ToString()];
        }
      }
      if fault.None? {
        var runtimePath: Option<Path> := None;
        if config.enableJLink {
          var created := CreateCustomRuntime(config, env, run);
          if created.Failure? {
            fault := Some(created.error);
          } else {
            runtimePath := Some(created.value);
          }
        }
        if fault.None? {
          var jpackage := PackageWithJPackage(config, runtimePath, env, run);
          if jpackage.Failure? {
            fault := Some(jpackage.error);
          } else {
            packaged := jpackage.value;
          }
        }
      }
    }
    if fault.Some? {
      var text := MessageText(fault.value);
      run.logs := run.logs + ["ERROR: " + text];
      result := FailureResult("Packaging failed: " + text, run.logs, elapsedMs, config);
    } else if packaged {
      result := SuccessResult(PackagedMessage, config.outputDirectory.value.ToString(),
                              run.logs, elapsedMs, config);
    } else {
      result := FailureResult(CheckLogsMessage, run.logs, elapsedMs, config);
    }
    streamed, started := run.streamed, run.started;
  }

  // ---------------------------------------------------------------------------
  // Properties of the jpackage command
  // ---------------------------------------------------------------------------

  /** Number of words before the first optional flag. */
  const MandatoryCount := 11

  /** Offsets only grow, by two for every flag that is passed. */
  lemma {:induction false} OffsetGrows(args: seq<OptionalArg>, j: nat, k: nat)
    requires j < k <= |args|
    ensures Offset(args, j) + (if args[j].passed then 2 else 0) <= Offset(args, k)
  {
    if k > j + 1 {
      OffsetGrows(args, j, k - 1);
    }
  }

  /** Extending the candidates keeps the words already there. */
  lemma WithOptionsExtends(prefix: seq<string>, args: seq<OptionalArg>, n: nat)
    requires 0 < n <= |args|
    ensures var before := WithOptions(prefix, args, n - 1);
      WithOptions(prefix, args, n)[..|before|] == before
  {
    var before := WithOptions(prefix, args, n - 1);
    assert WithOptions(prefix, args, n) == before + Pair(args[n - 1]);
  }

  /** A passed flag sits at its offset after the prefix, followed by its value. */
  lemma {:induction false} WithOptionsPlacement(prefix: seq<string>, args: seq<OptionalArg>, n: nat, k: nat)
    requires k < n <= |args| && args[k].passed
    ensures Offset(args, k) + 2 <= Offset(args, n)
    ensures var r := WithOptions(prefix, args, n);
      r[|prefix| + Offset(args, k)] == args[k].flag && r[|prefix| + Offset(args, k) + 1] == args[k].value
  {
    OffsetGrows(args, k, n);
    var r := WithOptions(prefix, args, n);
    var before := WithOptions(prefix, args, n - 1);
    if k == n - 1 {
      assert r == before + Pair(args[k]);
    } else {
      WithOptionsPlacement(prefix, args, n - 1, k);
      WithOptionsExtends(prefix, args, n);
      assert r[..|before|][|prefix| + Offset(args, k)] == before[|prefix| + Offset(args, k)];
      assert r[..|before|][|prefix| + Offset(args, k) + 1] == before[|prefix| + Offset(args, k) + 1];
    }
  }

  /** Every even offset after the prefix holds the flag of a candidate that is passed. */
  lemma {:induction false} WithOptionsOnlyPassed(prefix: seq<string>, args: seq<OptionalArg>, n: nat, p: nat)
    requires n <= |args|
    requires |prefix| <= p < |WithOptions(prefix, args, n)| && (p - |prefix|) % 2 == 0
    ensures exists k :: 0 <= k < n && args[k].passed && Offset(args, k) == p - |prefix|
                        && WithOptions(prefix, args, n)[p] == args[k].flag
  {
    var r := WithOptions(prefix, args, n);
    var before := WithOptions(prefix, args, n - 1);
    if p < |before| {
      WithOptionsOnlyPassed(prefix, args, n - 1, p);
      WithOptionsExtends(prefix, args, n);
      assert r[..|before|][p] == before[p];
    } else {
      assert r == before + Pair(args[n - 1]);
      assert Offset(args, n - 1) == p - |prefix| && r[p] == args[n - 1].flag;
    }
  }

  /** The optional flags are distinct words. */
  lemma OptionalFlagsDistinct()
    ensures forall j, k :: 0 <= j < k < |OptionalFlags| ==> OptionalFlags[j] != OptionalFlags[k]
  {
  }

  /** The jpackage command is built whenever the JAR has a parent, and starts with the mandatory pairs. */
  lemma JPackageCommandPrefix(config: PackageConfiguration, runtimePath: Option<Path>, env: PackagingEnvironment)
    requires Dereferenceable(config)
    ensures JPackageCommand(config, runtimePath, env).Success? <==> config.jarFile.value.Parent().Some?
    ensures JPackageCommand(config, runtimePath, env).Failure?
            ==> JPackageCommand(config, runtimePath, env).error == Some(NoParentMessage)
    ensures var command := JPackageCommand(config, runtimePath, env);
      command.Success? ==>
        && |command.value| == MandatoryCount + Offset(OptionalArgs(config, runtimePath, env), |OptionalFlags|)
        && command.value[..MandatoryCount] == MandatoryArgs(config, config.jarFile.value.Parent().value)
  {
  }

  /**
   * A passed optional flag is followed by its value, and every flag passed after it
   * in `OptionalFlags` comes later in the command.
   */
  lemma JPackageFlagPlacement(config: PackageConfiguration, runtimePath: Option<Path>,
                              env: PackagingEnvironment, k: nat)
    requires Dereferenceable(config) && config.jarFile.value.Parent().Some?
    requires k < |OptionalFlags| && OptionalArgs(config, runtimePath, env)[k].passed
    ensures var command := JPackageCommand(config, runtimePath, env).value;
      var args := OptionalArgs(config, runtimePath, env);
      && MandatoryCount + Offset(args, k) + 1 < |command|
      && command[MandatoryCount + Offset(args, k)] == OptionalFlags[k]
      && command[MandatoryCount + Offset(args, k) + 1] == args[k].value
      && forall j :: k < j < |args| && args[j].passed ==> Offset(args, k) < Offset(args, j)
  {
    var args := OptionalArgs(config, runtimePath, env);
    var mandatory := MandatoryArgs(config, config.jarFile.value.Parent().value);
    OptionalArgsFlags(config, runtimePath, env);
    WithOptionsPlacement(mandatory, args, |args|, k);
    forall j | k < j < |args| && args[j].passed
      ensures Offset(args, k) < Offset(args, j)
    {
      OffsetGrows(args, k, j);
    }
  }

  /** Optional flag `k` appears at an even offset after the mandatory pairs exactly when its condition holds. */
  lemma JPackageFlagPresence(config: PackageConfiguration, runtimePath: Option<Path>,
                             env: PackagingEnvironment, k: nat)
    requires Dereferenceable(config) && config.jarFile.value.Parent().Some?
    requires k < |OptionalFlags|
    ensures var command := JPackageCommand(config, runtimePath, env).value;
      OptionalArgs(config, runtimePath, env)[k].passed
      <==> exists p :: MandatoryCount <= p < |command| && (p - MandatoryCount) % 2 == 0
                       && command[p] == OptionalFlags[k]
  {
    var args := OptionalArgs(config, runtimePath, env);
    var mandatory := MandatoryArgs(config, config.jarFile.value.Parent().value);
    var command := JPackageCommand(config, runtimePath, env).value;
    assert command == WithOptions(mandatory, args, |args|);
    assert |mandatory| == MandatoryCount;
    OptionalArgsFlags(config, runtimePath, env);
    if args[k].passed {
      WithOptionsPlacement(mandatory, args, |args|, k);
      var p := MandatoryCount + Offset(args, k);
      assert command[p] == args[k].flag;
    } else {
      forall p | MandatoryCount <= p < |command| && (p - MandatoryCount) % 2 == 0
        ensures command[p] != OptionalFlags[k]
      {
        WithOptionsOnlyPassed(mandatory, args, |args|, p);
        var j :| 0 <= j < |args| && args[j].passed && Offset(args, j) == p - MandatoryCount && command[p] == args[j].flag;
        OptionalFlagsDistinct();
        assert j != k;
      }
    }
  }

  /** `OptionalArgs` lists the flags of `OptionalFlags`, in that order. */
  lemma OptionalArgsFlags(config: PackageConfiguration, runtimePath: Option<Path>, env: PackagingEnvironment)
    ensures var args := OptionalArgs(config, runtimePath, env);
      |args| == |OptionalFlags| && forall k :: 0 <= k < |args| ==> args[k].flag == OptionalFlags[k]
  {
  }

  // ---------------------------------------------------------------------------
  // Properties of a packaging run
  // ---------------------------------------------------------------------------

  /** The output directory exists, or creating it does not fail. */
  predicate DirectoryReady(config: PackageConfiguration, env: PackagingEnvironment)
    requires config.outputDirectory.Some?
  {
    config.outputDirectory.value in env.existing || env.createDirectoriesError.None?
  }

  /** The runtime image jpackage is offered: the one jlink builds, when jlink is enabled. */
  function JLinkRuntime(config: PackageConfiguration): Option<Path>
    requires config.outputDirectory.Some?
  {
    if config.enableJLink then Some(RuntimePath(config)) else None
  }

  /** The run gets as far as starting jpackage. */
  predicate ReachesJPackage(config: PackageConfiguration, env: PackagingEnvironment) {
    && Valid(config, env.existing)
    && DirectoryReady(config, env)
    && (config.enableJLink ==> config.requiredModules.Some? && env.jlink.Ran? && env.jlink.exitCode == 0)
    && config.jarFile.value.Parent().Some?
  }

  /** A configuration that fails validation is reported as such and starts no tool. */
  lemma ValidationFailureStartsNothing(config: PackageConfiguration, env: PackagingEnvironment, elapsedMs: int)
    requires ValidationError(config, env.existing).Some?
    ensures var outcome := Run(config, env, elapsedMs);
      var reason := ValidationError(config, env.existing).value;
      && !outcome.result.success
      && outcome.result.message == "Packaging failed: " + reason
      && outcome.result.logs == ["ERROR: " + reason]
      && outcome.started == [] && outcome.streamed == []
  {
  }

  /** What the jpackage stage decides: success exactly on exit code 0, with its command started last. */
  lemma FinishOutcome(config: PackageConfiguration, runtimePath: Option<Path>, env: PackagingEnvironment,
                      t: Trace, elapsedMs: int)
    requires Dereferenceable(config)
    ensures var outcome := Finish(config, runtimePath, env, t, elapsedMs);
      outcome.result.success
      <==> config.jarFile.value.Parent().Some? && env.jpackage.Ran? && env.jpackage.exitCode == 0
    ensures var outcome := Finish(config, runtimePath, env, t, elapsedMs);
      config.jarFile.value.Parent().Some?
      ==> outcome.started == t.started + [JPackageCommand(config, runtimePath, env).value]
    ensures var outcome := Finish(config, runtimePath, env, t, elapsedMs);
      outcome.result.success ==>
        outcome.result.message == PackagedMessage
        && outcome.result.outputPath == Some(config.outputDirectory.value.ToString())
    ensures var outcome := Finish(config, runtimePath, env, t, elapsedMs);
      config.jarFile.value.Parent().Some? && env.jpackage.Ran? && env.jpackage.exitCode != 0 ==>
        && outcome.result.message == CheckLogsMessage
        && outcome.result.logs[|outcome.result.logs| - 1]
           == "jpackage failed with exit code: " + IntToString(env.jpackage.exitCode)
  {
    JPackageCommandPrefix(config, runtimePath, env);
  }

  /** Without jlink enabled, the only process a run may start is jpackage. */
  lemma NoJLinkUnlessEnabled(config: PackageConfiguration, env: PackagingEnvironment, elapsedMs: int)
    requires !config.enableJLink
    ensures var started := Run(config, env, elapsedMs).started;
      |started| <= 1 && (|started| == 1 ==> |started[0]| > 0 && started[0][0] == "jpackage")
  {
    if Valid(config, env.existing) && DirectoryReady(config, env) {
      var t := DirectoryStage(config, env).trace;
      FinishOutcome(config, None, env, t, elapsedMs);
      if config.jarFile.value.Parent().Some? {
        var command := JPackageCommand(config, None, env).value;
        JPackageCommandPrefix(config, None, env);
        assert command[..MandatoryCount][0] == "jpackage";
      }
    }
  }

  /** With jlink enabled and the modules given, jlink is the first process started, with its exact command. */
  lemma JLinkStartedFirst(config: PackageConfiguration, env: PackagingEnvironment, elapsedMs: int)
    requires config.enableJLink && Valid(config, env.existing) && DirectoryReady(config, env)
    requires config.requiredModules.Some?
    ensures var started := Run(config, env, elapsedMs).started;
      |started| >= 1 && started[0] == JLinkCommand(config.requiredModules.value, RuntimePath(config))
  {
    var t := DirectoryStage(config, env).trace;
    var jlink := JLinkStage(config, env, t);
    assert jlink.trace.started == [JLinkCommand(config.requiredModules.value, RuntimePath(config))];
    if jlink.outcome.Success? {
      FinishOutcome(config, Some(jlink.outcome.value), env, jlink.trace, elapsedMs);
    }
  }

  /** A failing jlink ends the run: jpackage is not started and jlink's output stays in the logs. */
  lemma JLinkFailureStops(config: PackageConfiguration, env: PackagingEnvironment, elapsedMs: int)
    requires Valid(config, env.existing) && DirectoryReady(config, env)
    requires config.enableJLink && config.requiredModules.Some?
    requires env.jlink.Ran? && env.jlink.exitCode != 0
    ensures var outcome := Run(config, env, elapsedMs);
      var failure := "jlink failed with exit code: " + IntToString(env.jlink.exitCode);
      && !outcome.result.success
      && outcome.result.message == "Packaging failed: " + failure
      && outcome.started == [JLinkCommand(config.requiredModules.value, RuntimePath(config))]
      && outcome.result.logs
         == DirectoryStage(config, env).trace.logs + [JLinkStartMessage]
            + ToolLines("jlink", env.jlink.stdout, env.jlink.stderr) + ["ERROR: " + failure]
  {
  }

  /** A successful run got as far as jpackage, which exited with 0; it reports the output directory. */
  lemma SuccessMeansJPackageSucceeded(config: PackageConfiguration, env: PackagingEnvironment, elapsedMs: int)
    requires Run(config, env, elapsedMs).result.success
    ensures ReachesJPackage(config, env) && env.jpackage.Ran? && env.jpackage.exitCode == 0
    ensures var result := Run(config, env, elapsedMs).result;
      && result.message == PackagedMessage
      && result.outputPath == Some(config.outputDirectory.value.ToString())
  {
    var t := DirectoryStage(config, env).trace;
    if !config.enableJLink {
      FinishOutcome(config, None, env, t, elapsedMs);
    } else {
      var jlink := JLinkStage(config, env, t);
      FinishOutcome(config, Some(jlink.outcome.value), env, jlink.trace, elapsedMs);
    }
  }

  /** A run that reaches jpackage, which then exits with 0, succeeds. */
  lemma JPackageSuccessMeansSuccess(config: PackageConfiguration, env: PackagingEnvironment, elapsedMs: int)
    requires ReachesJPackage(config, env) && env.jpackage.Ran? && env.jpackage.exitCode == 0
    ensures Run(config, env, elapsedMs).result.success
  {
    var t := DirectoryStage(config, env).trace;
    if !config.enableJLink {
      FinishOutcome(config, None, env, t, elapsedMs);
    } else {
      var jlink := JLinkStage(config, env, t);
      FinishOutcome(config, Some(jlink.outcome.value), env, jlink.trace, elapsedMs);
    }
  }

  /**
   * A run that reaches jpackage starts it last, with the command built from the
   * configuration and the runtime jlink made; a non-zero exit points to the logs.
   */
  lemma JPackageStartedLast(config: PackageConfiguration, env: PackagingEnvironment, elapsedMs: int)
    requires ReachesJPackage(config, env)
    ensures var outcome := Run(config, env, elapsedMs);
      && |outcome.started| >= 1
      && outcome.started[|outcome.started| - 1] == JPackageCommand(config, JLinkRuntime(config), env).value
    ensures var outcome := Run(config, env, elapsedMs);
      env.jpackage.Ran? && env.jpackage.exitCode != 0 ==>
        && outcome.result.message == CheckLogsMessage
        && outcome.result.outputPath == None
        && outcome.result.logs[|outcome.result.logs| - 1]
           == "jpackage failed with exit code: " + IntToString(env.jpackage.exitCode)
  {
    var t := DirectoryStage(config, env).trace;
    if !config.enableJLink {
      FinishOutcome(config, None, env, t, elapsedMs);
    } else {
      var jlink := JLinkStage(config, env, t);
      assert jlink.outcome == Success(RuntimePath(config));
      FinishOutcome(config, Some(RuntimePath(config)), env, jlink.trace, elapsedMs);
    }
  }
}
