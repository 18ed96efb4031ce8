/**
 * Module resolution for a JAR: which runtime modules exist, which ones jdeps says the
 * JAR needs, the fallback sets used when jdeps cannot help, and the main class named
 * in the JAR manifest.
 *
 * Every external tool is run once and its observable outcome is an input (an
 * `AnalysisEnvironment`); in particular the list of available modules is one fixed
 * snapshot, although the service asks the runtime again on every availability check.
 * The service's local `HashSet`s are set values that the methods below grow in loops.
 */
module DependencyAnalysisServices {
  import opened Wrappers
  import opened JavaStrings
  import opened ToolRuns
  import opened PackageConfigurations
  import opened DependencyAnalyses

  /** What one analysis observes of the outside world. */
  datatype AnalysisEnvironment = AnalysisEnvironment(
    jdepsVersion: ToolRun,           // `jdeps --version`
    listModules: ToolRun,            // `java --list-modules`
    jdeps: ToolRun,                  // `jdeps --print-module-deps --ignore-missing-deps <jar>`
    jarListing: ToolRun,             // `jar -tf <jar>`
    manifest: Option<seq<string>>)   // the extracted `META-INF/MANIFEST.MF`, None when absent or unreadable

  // ---------------------------------------------------------------------------
  // Available modules: `java --list-modules`
  // ---------------------------------------------------------------------------

  /** What one line of the module listing does to the collected set. */
  datatype ListingLine = Skipped | Listed(name: string) | Throws

  /**
   * A trimmed line that is non-empty and contains '@' contributes the first element of
   * `line.split("@")`; when that array is empty (the line is all '@'), indexing it throws.
   */
  function ListingLineOutcome(line: string): ListingLine {
    var t := Trim(line);
    if t == "" || !HasDelimiter(t, Char('@')) then Skipped
    else
      var parts := Split(t, Char('@'));
      if |parts| == 0 then Throws else Listed(parts[0])
  }

  /** The outcome of each line, in order. */
  function Outcomes(lines: seq<string>): seq<ListingLine> {
    seq(|lines|, i requires 0 <= i < |lines| => ListingLineOutcome(lines[i]))
  }

  /** The names the outcomes list, in order; None once one throws. */
  function Collect(outcomes: seq<ListingLine>): Option<set<string>> {
    if |outcomes| == 0 then Some({})
    else
      match Collect(outcomes[..|outcomes| - 1])
      case None => None
      case Some(found) =>
        match outcomes[|outcomes| - 1]
        case Skipped => Some(found)
        case Listed(name) => Some(found + {name})
        case Throws => None
  }

  /** The modules named by a listing's lines; None when reading them throws. */
  function ListedModules(lines: seq<string>): Option<set<string>> {
    Collect(Outcomes(lines))
  }

  /** `getAvailableModulesInternal`: the read loop over the listing's standard output. */
  method GetAvailableModulesInternal(lines: seq<string>) returns (r: Option<set<string>>)
    ensures r == ListedModules(lines)
  {
    ghost var outcomes := Outcomes(lines);
    var modules: set<string> := {};
    var i := 0;
    while i < |lines|
      invariant 0 <= i <= |lines|
      invariant Collect(outcomes[..i]) == Some(modules)
    {
      var outcome := ListingLineOutcome(lines[i]);
      assert outcomes[i] == outcome;
      CollectStep(outcomes, i, modules);
      match outcome {
        case Skipped =>
        case Listed(moduleName) =>
          modules := modules + {moduleName};
        case Throws =>
          assert Throws in outcomes;
          CollectMembers(outcomes);
          return None;
      }
      i := i + 1;
    }
    assert outcomes[..|lines|] == outcomes;
    return Some(modules);
  }

  /** One turn of the read loop: a skipped line keeps the set, a listed one adds its name. */
  lemma CollectStep(outcomes: seq<ListingLine>, i: nat, found: set<string>)
    requires i < |outcomes| && Collect(outcomes[..i]) == Some(found)
    ensures outcomes[i].Skipped? ==> Collect(outcomes[..i + 1]) == Some(found)
    ensures outcomes[i].Listed? ==> Collect(outcomes[..i + 1]) == Some(found + {outcomes[i].name})
  {
    assert outcomes[..i + 1][..i] == outcomes[..i];
  }

  /** `getAvailableModules`: a tool that cannot start, or a line that throws, gives the empty set. */
  function AvailableModules(listing: ToolRun): set<string> {
    match listing
    case SpawnFailed(_) => {}
    case Ran(out, _, _) =>
      match ListedModules(out)
      case None => {}
      case Some(found) => found
  }

  method GetAvailableModules(listing: ToolRun) returns (r: set<string>)
    ensures r == AvailableModules(listing)
  {
    match listing
    case SpawnFailed(_) => return {};
    case Ran(out, _, _) =>
      var found := GetAvailableModulesInternal(out);
      r := if found.Some? then found.value else {};
  }

  /** Reading succeeds exactly when no line throws, and then holds exactly the listed names. */
  lemma {:induction false} CollectMembers(outcomes: seq<ListingLine>)
    ensures Collect(outcomes).None? <==> Throws in outcomes
    ensures Collect(outcomes).Some? ==>
      forall m :: m in Collect(outcomes).value <==> Listed(m) in outcomes
  {
    if |outcomes| > 0 {
      var init := outcomes[..|outcomes| - 1];
      CollectMembers(init);
      assert outcomes == init + [outcomes[|outcomes| - 1]];
    }
  }

  /** The available modules are the names the listing's lines list, or none when a line throws. */
  lemma AvailableModulesMembers(listing: ToolRun, m: string)
    ensures m in AvailableModules(listing) <==>
      listing.Ran? && Throws !in Outcomes(listing.stdout) && Listed(m) in Outcomes(listing.stdout)
  {
    if listing.Ran? {
      CollectMembers(Outcomes(listing.stdout));
    }
  }

  /** A listed name is the trimmed line's text before its first '@'. */
  lemma ListedNameIsTextBeforeAt(line: string)
    requires ListingLineOutcome(line).Listed?
    ensures var t, name := Trim(line), ListingLineOutcome(line).name;
            |name| < |t| && t[..|name|] == name && t[|name|] == '@' && '@' !in name
  {
    var t := Trim(line);
    var parts := Split(t, Char('@'));
    var i := FirstDelimiter(t, Char('@'));
    assert Pieces(t, Char('@'))[0] == t[..i];
    assert parts[0] in parts;
  }

  /** Reading a listing line throws exactly when the trimmed line is one or more '@' and nothing else. */
  lemma ThrowsExactlyOnAtSigns(line: string)
    ensures ListingLineOutcome(line) == Throws <==>
      (Trim(line) != "" && forall i :: 0 <= i < |Trim(line)| ==> Trim(line)[i] == '@')
  {
    var t := Trim(line);
    if ListingLineOutcome(line) == Throws {
      SplitEmptyOnlyForSeparators(t, '@');
    }
    if t != "" && forall i :: 0 <= i < |t| ==> t[i] == '@' {
      assert Delimits(Char('@'), t[0]);
      SplitOfSeparators(t, '@');
    }
  }

  // ---------------------------------------------------------------------------
  // Availability
  // ---------------------------------------------------------------------------

  /** `isProblematicModule`: the names that some runtimes leave out. */
  predicate IsProblematicModule(name: string) {
    name == "jdk.management.jfr" || name == "jdk.jfr" || name == "jdk.management.agent"
    || StartsWith(name, "jdk.internal.") || Contains(name, "incubator")
  }

  /** `isModuleAvailable`: both branches give false for an absent name, so this is membership. */
  function IsModuleAvailable(name: string, available: set<string>): (r: bool)
    ensures r <==> name in available
  {
    var present := name in available;
    if !present && IsProblematicModule(name) then false else present
  }

  // ---------------------------------------------------------------------------
  // Required modules: `jdeps --print-module-deps`
  // ---------------------------------------------------------------------------

  /** A trimmed jdeps line is read unless it is empty, an error, or reports something not found. */
  predicate AcceptsJdepsLine(t: string) {
    t != "" && !StartsWith(t, "Error:") && !Contains(t, "not found")
  }

  /** `trim` applied to each element. */
  function TrimAll(xs: seq<string>): seq<string> {
    seq(|xs|, k requires 0 <= k < |xs| => Trim(xs[k]))
  }

  /** The trimmed comma-separated names on a jdeps output line that is read; none on one that is skipped. */
  function LineNames(line: string): seq<string> {
    var t := Trim(line);
    if AcceptsJdepsLine(t) then TrimAll(Split(t, Char(','))) else []
  }

  /** The names that pass the availability filter. */
  function AvailableAmong(names: seq<string>, available: set<string>): set<string> {
    if |names| == 0 then {}
    else
      var name := names[|names| - 1];
      AvailableAmong(names[..|names| - 1], available)
        + (if IsModuleAvailable(name, available) then {name} else {})
  }

  /** The names on each output line, in order. */
  function NameLists(lines: seq<string>): seq<seq<string>> {
    seq(|lines|, i requires 0 <= i < |lines| => LineNames(lines[i]))
  }

  /** The available names over all lists. */
  function UnionAvailable(lists: seq<seq<string>>, available: set<string>): set<string> {
    if |lists| == 0 then {}
    else UnionAvailable(lists[..|lists| - 1], available) + AvailableAmong(lists[|lists| - 1], available)
  }

  /** The modules the jdeps output lines contribute together. */
  function JdepsModules(lines: seq<string>, available: set<string>): set<string> {
    UnionAvailable(NameLists(lines), available)
  }

  /** Adding one more name to the filter. */
  lemma AvailableAmongStep(names: seq<string>, j: nat, available: set<string>)
    requires j < |names|
    ensures AvailableAmong(names[..j + 1], available)
      == AvailableAmong(names[..j], available) + (if IsModuleAvailable(names[j], available) then {names[j]} else {})
  {
    assert names[..j + 1][..j] == names[..j];
  }

  /** Adding one more line's names to the union. */
  lemma UnionAvailableStep(lists: seq<seq<string>>, i: nat, available: set<string>)
    requires i < |lists|
    ensures UnionAvailable(lists[..i + 1], available) == UnionAvailable(lists[..i], available) + AvailableAmong(lists[i], available)
  {
    assert lists[..i + 1][..i] == lists[..i];
  }

  /** The inner loop of `getRequiredModules`: each trimmed name of one line that is available is added. */
  method AddAvailableNames(modules: set<string>, moduleArray: seq<string>, available: set<string>)
    returns (result: set<string>)
    ensures result == modules + AvailableAmong(TrimAll(moduleArray), available)
  {
    ghost var names := TrimAll(moduleArray);
    result := modules;
    var j := 0;
    while j < |moduleArray|
      invariant 0 <= j <= |moduleArray|
      invariant result == modules + AvailableAmong(names[..j], available)
    {
      AvailableAmongStep(names, j, available);
      var cleanModule := Trim(moduleArray[j]);
      if IsModuleAvailable(cleanModule, available) {
        result := result + {cleanModule};
      }
      j := j + 1;
    }
    assert names[..|moduleArray|] == names;
  }

  /** The read loop of `getRequiredModules`: each accepted line, split on ',', trimmed, filtered. */
  method CollectJdepsModules(lines: seq<string>, available: set<string>) returns (modules: set<string>)
    ensures modules == JdepsModules(lines, available)
  {
    ghost var lists := NameLists(lines);
    modules := {};
    var i := 0;
    while i < |lines|
      invariant 0 <= i <= |lines|
      invariant modules == UnionAvailable(lists[..i], available)
    {
      UnionAvailableStep(lists, i, available);
      var line := Trim(lines[i]);
      assert lists[i] == LineNames(lines[i]);
      ghost var before := modules;
      if line != "" && !StartsWith(line, "Error:") && !Contains(line, "not found") {
        var moduleArray := Split(line, Char(','));
        modules := AddAvailableNames(modules, moduleArray, available);
        assert lists[i] == TrimAll(moduleArray);
      } else {
        assert lists[i] == [];
      }
      assert modules == before + AvailableAmong(lists[i], available);
      i := i + 1;
    }
    assert lists[..|lines|] == lists;
  }

  /** A name is kept exactly when it is among the names and available. */
  lemma {:induction false} AvailableAmongMembers(names: seq<string>, available: set<string>)
    ensures forall m :: m in AvailableAmong(names, available) <==> m in names && m in available
  {
    if |names| > 0 {
      var init := names[..|names| - 1];
      AvailableAmongMembers(init, available);
      assert names == init + [names[|names| - 1]];
    }
  }

  /** A name is collected exactly when it is available and on some list. */
  lemma {:induction false} UnionAvailableMembers(lists: seq<seq<string>>, available: set<string>, m: string)
    ensures m in UnionAvailable(lists, available) <==>
      m in available && exists i :: 0 <= i < |lists| && m in lists[i]
  {
    if |lists| > 0 {
      var init := lists[..|lists| - 1];
      UnionAvailableMembers(init, available, m);
      AvailableAmongMembers(lists[|lists| - 1], available);
      if exists i :: 0 <= i < |lists| && m in lists[i] {
        var i :| 0 <= i < |lists| && m in lists[i];
        if i < |init| {
          assert init[i] == lists[i];
        }
      }
      if exists i :: 0 <= i < |init| && m in init[i] {
        var i :| 0 <= i < |init| && m in init[i];
        assert init[i] == lists[i];
      }
    }
  }

  /** A module is collected exactly when it is available and named on some line that is read. */
  lemma JdepsModulesMembers(lines: seq<string>, available: set<string>, m: string)
    ensures m in JdepsModules(lines, available) <==>
      m in available && exists i :: 0 <= i < |lines| && m in NameLists(lines)[i]
  {
    UnionAvailableMembers(NameLists(lines), available, m);
  }

  /** Every module jdeps yields is available: the availability filter is applied to each name. */
  lemma JdepsModulesAvailable(lines: seq<string>, available: set<string>)
    ensures JdepsModules(lines, available) <= available
  {
    forall m | m in JdepsModules(lines, available) ensures m in available {
      JdepsModulesMembers(lines, available, m);
    }
  }

  // ---------------------------------------------------------------------------
  // Fallback and essential module sets
  // ---------------------------------------------------------------------------

  /** The eleven names `getDefaultJavaFXModules` tries, in its order. */
  const DefaultModuleNames: seq<string> := [
    "java.base", "java.desktop", "java.logging", "java.management", "java.naming",
    "java.prefs", "java.xml", "javafx.controls", "javafx.fxml", "javafx.base",
    "javafx.graphics"]

  /** The four names `addEssentialJavaFXModules` tries. */
  const EssentialJavaFXModuleNames: seq<string> := [
    "javafx.controls", "javafx.fxml", "javafx.base", "javafx.graphics"]

  function DefaultModules(available: set<string>): set<string> {
    set m | m in DefaultModuleNames && m in available
  }

  function EssentialJavaFXModules(available: set<string>): set<string> {
    set m | m in EssentialJavaFXModuleNames && m in available
  }

  /** `getDefaultJavaFXModules`: the default names that are available, and nothing else. */
  method GetDefaultJavaFXModules(available: set<string>) returns (modules: set<string>)
    ensures forall m :: m in modules <==> m in DefaultModuleNames && m in available
    ensures modules == DefaultModules(available)
  {
    modules := {};
    for k := 0 to |DefaultModuleNames|
      invariant forall m :: m in modules <==> m in DefaultModuleNames[..k] && m in available
    {
      var name := DefaultModuleNames[k];
      if IsModuleAvailable(name, available) {
        modules := modules + {name};
      }
    }
    assert DefaultModuleNames[..|DefaultModuleNames|] == DefaultModuleNames;
  }

  /** `addEssentialJavaFXModules`: the available essential names are added and nothing is removed. */
  method AddEssentialJavaFXModules(modules: set<string>, available: set<string>) returns (result: set<string>)
    ensures forall m :: m in result <==> m in modules || (m in EssentialJavaFXModuleNames && m in available)
    ensures result == modules + EssentialJavaFXModules(available)
  {
    result := modules;
    for k := 0 to |EssentialJavaFXModuleNames|
      invariant forall m :: m in result <==> m in modules || (m in EssentialJavaFXModuleNames[..k] && m in available)
    {
      var name := EssentialJavaFXModuleNames[k];
      if IsModuleAvailable(name, available) {
        result := result + {name};
      }
    }
    assert EssentialJavaFXModuleNames[..|EssentialJavaFXModuleNames|] == EssentialJavaFXModuleNames;
  }

  /** Every essential JavaFX module is also a default module. */
  lemma EssentialsAmongDefaults(available: set<string>)
    ensures EssentialJavaFXModules(available) <= DefaultModules(available)
  {
    forall m | m in EssentialJavaFXModules(available) ensures m in DefaultModules(available) {
      assert m in DefaultModuleNames[7..];
    }
  }

  // ---------------------------------------------------------------------------
  // JavaFX detection and the required set
  // ---------------------------------------------------------------------------

  predicate MentionsJavaFX(entry: string) {
    Contains(entry, "javafx") || Contains(entry, "JavaFX")
  }

  /** A JAR whose listing could be read and names some JavaFX entry. */
  predicate IsJavaFXListing(listing: ToolRun) {
    listing.Ran? && exists i :: 0 <= i < |listing.stdout| && MentionsJavaFX(listing.stdout[i])
  }

  /** `isJavaFXApplication`: scans the entry names and stops at the first JavaFX one. */
  method IsJavaFXApplication(listing: ToolRun) returns (r: bool)
    ensures r <==> listing.Ran? && exists i :: 0 <= i < |listing.stdout| && MentionsJavaFX(listing.stdout[i])
  {
    if listing.SpawnFailed? {
      return false;
    }
    var entries := listing.stdout;
    var i := 0;
    while i < |entries|
      invariant 0 <= i <= |entries|
      invariant forall j :: 0 <= j < i ==> !MentionsJavaFX(entries[j])
    {
      if Contains(entries[i], "javafx") || Contains(entries[i], "JavaFX") {
        return true;
      }
      i := i + 1;
    }
    return false;
  }

  /**
   * `getRequiredModules`: a jdeps that cannot start throws (Failure with the message);
   * otherwise the collected set, replaced by the defaults when jdeps failed or found
   * nothing, then widened by the essential JavaFX modules for a JavaFX JAR.
   */
  function RequiredModules(jdeps: ToolRun, jarListing: ToolRun, available: set<string>): Result<set<string>, string> {
    match jdeps
    case SpawnFailed(message) => Failure(message)
    case Ran(out, _, exitCode) =>
      var found := JdepsModules(out, available);
      var modules := if exitCode != 0 || found == {} then DefaultModules(available) else found;
      Success(if IsJavaFXListing(jarListing) then modules + EssentialJavaFXModules(available) else modules)
  }

  method GetRequiredModules(jdeps: ToolRun, jarListing: ToolRun, available: set<string>)
    returns (r: Result<set<string>, string>)
    ensures r == RequiredModules(jdeps, jarListing, available)
  {
    match jdeps
    case SpawnFailed(message) => return Failure(message);
    case Ran(out, _, exitCode) =>
      var modules := CollectJdepsModules(out, available);
      if exitCode != 0 || modules == {} {
        modules := GetDefaultJavaFXModules(available);
      }
      var javaFX := IsJavaFXApplication(jarListing);
      if javaFX {
        modules := AddEssentialJavaFXModules(modules, available);
      }
      return Success(modules);
  }

  /** `findMissingModules`: the required modules that are not available. */
  function FindMissingModules(required: set<string>, available: set<string>): (missing: set<string>)
    ensures missing <= required && missing !! available
    ensures required <= missing + available
  {
    required - available
  }

  // ---------------------------------------------------------------------------
  // Main class
  // ---------------------------------------------------------------------------

  const ManifestEntry := "META-INF/MANIFEST.MF"
  const MainClassHeader := "Main-Class:"

  /** The trimmed value of the first line that starts with `Main-Class:`, if any. */
  function ManifestMainClass(lines: seq<string>): Option<string> {
    if |lines| == 0 then None
    else if StartsWith(lines[0], MainClassHeader) then Some(Trim(lines[0][|MainClassHeader|..]))
    else ManifestMainClass(lines[1..])
  }

  /** The lookup takes the first line that starts with the header. */
  lemma {:induction false} ManifestMainClassIsFirstMatch(lines: seq<string>, i: int)
    requires 0 <= i < |lines| && StartsWith(lines[i], MainClassHeader)
    requires forall j :: 0 <= j < i ==> !StartsWith(lines[j], MainClassHeader)
    ensures ManifestMainClass(lines) == Some(Trim(lines[i][|MainClassHeader|..]))
  {
    if i > 0 {
      ManifestMainClassIsFirstMatch(lines[1..], i - 1);
    }
  }

  /** No line with the header gives null. */
  lemma {:induction false} ManifestMainClassNone(lines: seq<string>)
    ensures ManifestMainClass(lines).None? <==>
      forall i :: 0 <= i < |lines| ==> !StartsWith(lines[i], MainClassHeader)
  {
    if |lines| > 0 {
      ManifestMainClassNone(lines[1..]);
      assert forall i :: 0 < i < |lines| ==> lines[i] == lines[1..][i - 1];
    }
  }

  /**
   * `extractMainClassFromManifest`: the extraction runs in the JAR's parent directory,
   * so a JAR path without a parent throws and gives null, as does a missing manifest.
   */
  method ExtractMainClassFromManifest(jarPath: Path, manifest: Option<seq<string>>) returns (r: Option<string>)
    ensures r == if jarPath.Parent().Some? && manifest.Some? then ManifestMainClass(manifest.value) else None
  {
    if jarPath.Parent().None? || manifest.None? {
      return None;
    }
    var lines := manifest.value;
    var i := 0;
    while i < |lines|
      invariant 0 <= i <= |lines|
      invariant ManifestMainClass(lines) == ManifestMainClass(lines[i..])
    {
      if StartsWith(lines[i], MainClassHeader) {
        return Some(Trim(lines[i][|MainClassHeader|..]));
      }
      assert lines[i..][1..] == lines[i + 1..];
      i := i + 1;
    }
    return None;
  }

  /** `detectMainClass`: the manifest is consulted only when the listing names it. */
  function MainClassOf(jarPath: Path, env: AnalysisEnvironment): Option<string> {
    if env.jarListing.Ran? && ManifestEntry in env.jarListing.stdout
       && jarPath.Parent().Some? && env.manifest.Some?
    then ManifestMainClass(env.manifest.value)
    else None
  }

  method DetectMainClass(jarPath: Path, env: AnalysisEnvironment) returns (r: Option<string>)
    ensures r == MainClassOf(jarPath, env)
  {
    if env.jarListing.SpawnFailed? {
      return None;
    }
    var entries := env.jarListing.stdout;
    var i := 0;
    while i < |entries|
      invariant 0 <= i <= |entries|
      invariant ManifestEntry !in entries[..i]
    {
      if entries[i] == ManifestEntry {
        r := ExtractMainClassFromManifest(jarPath, env.manifest);
        return;
      }
      assert entries[..i + 1] == entries[..i] + [entries[i]];
      i := i + 1;
    }
    assert entries[..|entries|] == entries;
    return None;
  }

  // ---------------------------------------------------------------------------
  // Suggested modules
  // ---------------------------------------------------------------------------

  /** `getSuggestedModules`: sixteen distinct names, among them every default module. */
  function GetSuggestedModules(): (r: seq<string>)
    ensures |r| == 16
    ensures forall i, j :: 0 <= i < j < |r| ==> r[i] != r[j]
    ensures forall m :: m in DefaultModuleNames ==> m in r
  {
    ["java.base", "java.desktop", "java.logging", "java.management", "java.naming",
     "java.prefs", "java.security.jgss", "java.sql", "java.xml", "javafx.controls",
     "javafx.fxml", "javafx.base", "javafx.graphics", "jdk.crypto.ec", "jdk.localedata",
     "jdk.unsupported"]
  }

  // ---------------------------------------------------------------------------
  // The analysis
  // ---------------------------------------------------------------------------

  /** `isJdepsAvailable`: `jdeps --version` started and exited with 0. */
  predicate JdepsAvailable(probe: ToolRun) {
    probe.Ran? && probe.exitCode == 0
  }

  const JdepsUnavailableMessage := "jdeps not available - using default JavaFX modules"
  const AnalysisFailedPrefix := "Analysis failed, using default modules: "

  /** `analyzeJar` for a non-null JAR path. */
  function Analyze(jarPath: Path, env: AnalysisEnvironment): DependencyAnalysis {
    var available := AvailableModules(env.listModules);
    var mainClass := MainClassOf(jarPath, env);
    if !JdepsAvailable(env.jdepsVersion) then
      DependencyAnalysis(true, Some(jarPath.ToString()), Some(DefaultModules(available)),
                         Some(available), Some({}), mainClass, Some(JdepsUnavailableMessage))
    else
      match RequiredModules(env.jdeps, env.jarListing, available)
      case Failure(message) =>
        DependencyAnalysis(true, Some(jarPath.ToString()), Some(DefaultModules(available)),
                           Some(available), Some({}), mainClass, Some(AnalysisFailedPrefix + message))
      case Success(required) =>
        DependencyAnalysis(true, Some(jarPath.ToString()), Some(required), Some(available),
                           Some(FindMissingModules(required, available)), mainClass, None)
  }

  method AnalyzeJar(jarPath: Path, env: AnalysisEnvironment) returns (a: DependencyAnalysis)
    ensures a == Analyze(jarPath, env)
  {
    var jdepsAvailable := env.jdepsVersion.Ran? && env.jdepsVersion.exitCode == 0;
    if !jdepsAvailable {
      var availableModules := GetAvailableModules(env.listModules);
      var defaultModules := GetDefaultJavaFXModules(availableModules);
      var mainClass := DetectMainClass(jarPath, env);
      return DependencyAnalysis(true, Some(jarPath.ToString()), Some(defaultModules),
                                Some(availableModules), Some({}), mainClass, Some(JdepsUnavailableMessage));
    }
    var availableModules := GetAvailableModules(env.listModules);
    var required := GetRequiredModules(env.jdeps, env.jarListing, availableModules);
    var mainClass := DetectMainClass(jarPath, env);
    match required
    case Failure(message) =>
      var defaultModules := GetDefaultJavaFXModules(availableModules);
      return DependencyAnalysis(true, Some(jarPath.ToString()), Some(defaultModules),
                                Some(availableModules), Some({}), mainClass, Some(AnalysisFailedPrefix + message));
    case Success(requiredModules) =>
      var missingModules := FindMissingModules(requiredModules, availableModules);
      return DependencyAnalysis(true, Some(jarPath.ToString()), Some(requiredModules),
                                Some(availableModules), Some(missingModules), mainClass, None);
  }

  /** The analysis always reports success and echoes the JAR path, the available set and the main class. */
  lemma AnalysisAlwaysSucceeds(jarPath: Path, env: AnalysisEnvironment)
    ensures var a := Analyze(jarPath, env);
      a.success && a.jarPath == Some(jarPath.ToString())
      && a.availableModules == Some(AvailableModules(env.listModules))
      && a.mainClass == MainClassOf(jarPath, env)
  {
  }

  /** Every required module is available, so no module is ever reported missing. */
  lemma RequiredModulesAvailable(jarPath: Path, env: AnalysisEnvironment)
    ensures var a := Analyze(jarPath, env);
      a.requiredModules.Some? && a.availableModules.Some?
      && a.requiredModules.value <= a.availableModules.value
      && a.missingModules == Some({}) && !a.HasMissingModules()
  {
    if JdepsAvailable(env.jdepsVersion) && env.jdeps.Ran? {
      var available := AvailableModules(env.listModules);
      JdepsModulesAvailable(env.jdeps.stdout, available);
      var required := RequiredModules(env.jdeps, env.jarListing, available).value;
      assert required <= available;
      assert FindMissingModules(required, available) == {};
    }
  }

  /** The error message is set exactly on the two fallback paths, and those report the default set. */
  lemma ErrorMessageMarksFallback(jarPath: Path, env: AnalysisEnvironment)
    ensures var a := Analyze(jarPath, env);
      (a.errorMessage.Some? <==> !JdepsAvailable(env.jdepsVersion) || env.jdeps.SpawnFailed?)
      && (a.errorMessage.Some? ==> a.requiredModules == Some(DefaultModules(AvailableModules(env.listModules))))
  {
  }

  /**
   * When jdeps ran: its modules are kept when it exited with 0 and found some, otherwise
   * the defaults stand in; a JavaFX JAR also gets the essential JavaFX modules.
   */
  lemma JdepsPathRequired(jarPath: Path, env: AnalysisEnvironment)
    requires JdepsAvailable(env.jdepsVersion) && env.jdeps.Ran?
    ensures var available := AvailableModules(env.listModules);
      var found := JdepsModules(env.jdeps.stdout, available);
      var required := Analyze(jarPath, env).requiredModules;
      var base := if env.jdeps.exitCode == 0 && found != {} then found else DefaultModules(available);
      required.Some? && base <= required.value
      && (IsJavaFXListing(env.jarListing) ==> required.value == base + EssentialJavaFXModules(available))
      && (!IsJavaFXListing(env.jarListing) ==> required.value == base)
  {
  }
}
