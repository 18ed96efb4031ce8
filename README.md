# Packaroo core, modelled in Dafny

Packaroo is a desktop front end to the JDK's `jlink` and `jpackage` tools. It turns a
runnable JAR into a native application image or installer. This project models the
non-visual core of its desktop module:

- **Packaging** (`PackagingService`): the run validates the configuration, creates the
  output directory, optionally builds a custom runtime with `jlink`, then calls
  `jpackage`. Every log line and every failure ends up in a `PackagingResult`.
- **Dependency analysis** (`DependencyAnalysisService`): the available runtime modules
  come from `java --list-modules`, and the required ones from `jdeps`. It also covers
  the fallback module sets, the JavaFX detection, and the `Main-Class` manifest header.
- **Controller rules** (`MainController`): how a JAR file name becomes an application
  name and version, and how the name is title-cased. It also covers the output folder,
  the preset and vendor names, and the modules check-list.
- **The preset store** (`ConfigurationService`): one JSON file per preset.
- **The console logger** (`ConsoleLoggerService`): its console line and history formats.
- **The advanced options panel** (`AdvancedOptionsPanel`): the module list with its
  selection, and the one-argument-per-line text areas.

One Dafny module stands for each source file. There are also four supporting modules:

- `Wrappers` holds `Option` and `Result`.
- `JavaStrings` gives the `java.lang.String` operations the code relies on: `trim`,
  `split` with its trailing-empty rule, `String.join`, ASCII case mapping,
  `%-8s` padding, and decimal rendering.
- `ToolRuns` is the observed outcome of an external process.
- `ModuleLists` is the distinct list of module names shared by the controller and the panel.

Code that mutates state is modelled as classes with `modifies` frames, and loops are
proved against specification functions:

- `MainForm`, `ConfigurationService`, `ConsoleLoggerService`, `AdvancedOptionsPanel`;
- the `RunLog` of a packaging run;
- the loops of `formatApplicationName`, `populateFieldsFromJarFile`, `getFirstNonNull`,
  the module collectors, `updateModulesList`, `setSelectedModules` and
  `getAvailablePresets`.

External processes, the file system, the clock and the user's home directory are
inputs:

- a `ToolRun` per process;
- the set of existing paths;
- a map from file name to configuration for the preset directory;
- the formatted timestamps.

Source paths in the table below are relative to the repository root.

## Model

| member | source | states |
|---|---|---|
| PackageConfigurations.Path.Parent | desktop/src/main/java/com/devdam/desktop/service/PackagingService.java:161 | a parent, when there is one, is the path without its last name and keeps absoluteness |
| PackageConfigurations.Path.FileName | desktop/src/main/java/com/devdam/desktop/service/PackagingService.java:163 | the file name of a non-empty path is its last name as a relative path |
| PackageConfigurations.Path.Resolve | desktop/src/main/java/com/devdam/desktop/service/PackagingService.java:104 | resolving a name gives a path whose file name is the name and, unless the path is the empty relative one, whose parent is the original path |
| PackageConfigurations.TargetPlatformTable | desktop/src/main/java/com/devdam/desktop/model/PackageConfiguration.java:41-56 | four distinct platforms, CURRENT displayed as "Current Platform" |
| PackageConfigurations.JPackageTypeTable | desktop/src/main/java/com/devdam/desktop/model/PackageConfiguration.java:58-88 | seven formats; APP_IMAGE maps to "app-image", every other format to its lower-cased constant name |
| PackageConfigurations.JPackageTypeInjective | desktop/src/main/java/com/devdam/desktop/model/PackageConfiguration.java:77-87 | distinct formats give distinct jpackage type codes |
| PackagingResults.SuccessResult | desktop/src/main/java/com/devdam/desktop/model/PackagingResult.java:25-37 | `success(...)` is successful, carries the output path, and keeps message, logs, time and configuration |
| PackagingResults.FailureResult | desktop/src/main/java/com/devdam/desktop/model/PackagingResult.java:39-49 | `failure(...)` is unsuccessful with a null output path, keeping message, logs, time and configuration |
| PackagingResults.FactoriesDifferOnlyInOutcome | desktop/src/main/java/com/devdam/desktop/model/PackagingResult.java:25-49 | the two factories agree on every field except the success flag and the output path |
| DependencyAnalyses.HasRequiredModulesMeansMember | desktop/src/main/java/com/devdam/desktop/model/DependencyAnalysis.java:24-26 | `hasRequiredModules` holds exactly when the set is non-null and has a member |
| DependencyAnalyses.HasMissingModulesMeansMember | desktop/src/main/java/com/devdam/desktop/model/DependencyAnalysis.java:28-30 | `hasMissingModules` holds exactly when the set is non-null and has a member |
| DependencyAnalyses.HasPredicatesIndependent | desktop/src/main/java/com/devdam/desktop/model/DependencyAnalysis.java:24-30 | each predicate reads only its own field |
| LogLevels.LogLevel.ToString | desktop/src/main/java/com/devdam/desktop/model/LogLevel.java:26 | `toString` is the level's name |
| LogLevels.ValueOf | desktop/src/main/java/com/devdam/desktop/model/LogLevel.java:3-9 | Some exactly for one of the declared levels' own names, and then that level; none for every other identifier |
| LogLevels.LevelsAreEnumerated | desktop/src/main/java/com/devdam/desktop/model/LogLevel.java:3-9 | exactly six levels, each listed once |
| LogLevels.NameIsIdentifier | desktop/src/main/java/com/devdam/desktop/model/LogLevel.java:4-9 | each level's name is its constant's identifier, so `valueOf(name)` gives the level back |
| LogLevels.LevelAttributesDistinct | desktop/src/main/java/com/devdam/desktop/model/LogLevel.java:4-9 | distinct levels have distinct names, icons and colours |
| LogLevels.NamesFitWidth | desktop/src/main/java/com/devdam/desktop/model/LogLevel.java:4-9 | every name is 1 to 8 chars long, so `%-8s` pads without truncating |
| JavaStrings.Trim | desktop/src/main/java/com/devdam/desktop/ui/panels/AdvancedOptionsPanel.java:168 | `trim` removes exactly the leading and trailing chars <= ' ': the result occurs in the string with only such chars before and after it, and neither of its ends is one; empty exactly when every char is <= ' ' |
| JavaStrings.TrimStart | desktop/src/main/java/com/devdam/desktop/ui/panels/AdvancedOptionsPanel.java:168 | the leading chars <= ' ' are dropped, and only those: the result is a suffix that does not start with one |
| JavaStrings.TrimEnd | desktop/src/main/java/com/devdam/desktop/ui/panels/AdvancedOptionsPanel.java:168 | the trailing chars <= ' ' are dropped, and only those: the result is a prefix that does not end with one |
| JavaStrings.BlankIsTrimmedEmpty | desktop/src/main/java/com/devdam/desktop/controller/MainController.java:649 | `s.trim().isEmpty()` holds exactly when every char is <= ' ' |
| JavaStrings.Split | desktop/src/main/java/com/devdam/desktop/ui/panels/AdvancedOptionsPanel.java:172 | no part of a split holds a delimiter |
| JavaStrings.SplitJoin | desktop/src/main/java/com/devdam/desktop/ui/panels/AdvancedOptionsPanel.java:206-212 | splitting a join at its one-char separator gives the list back when no element holds the separator and the last is not empty |
| JavaStrings.JoinSplit | desktop/src/main/java/com/devdam/desktop/ui/panels/AdvancedOptionsPanel.java:167-173 | joining a split gives the string back when it does not end with the separator |
| JavaStrings.Join | desktop/src/main/java/com/devdam/desktop/service/PackagingService.java:114 | `String.join`: the parts with the separator between each two; the reference for the lemmas on joins |
| JavaStrings.SplitPrefix | desktop/src/main/java/com/devdam/desktop/controller/MainController.java:340-347 | the first i parts joined, the separator and part i begin the split string |
| JavaStrings.PadRight | desktop/src/main/java/com/devdam/desktop/service/ConsoleLoggerService.java:44 | `%-8s`: the text followed by spaces up to the width, never cut |
| JavaStrings.KeepAlnum | desktop/src/main/java/com/devdam/desktop/controller/MainController.java:696 | `replaceAll("[^a-zA-Z0-9]", "")` keeps only ASCII letters and digits, and leaves an all-alphanumeric string alone; with `KeepAlnumChar` and `KeepAlnumAppend` the kept chars are exactly the letters and digits, in order |
| JavaStrings.KeepAlnumChar | desktop/src/main/java/com/devdam/desktop/controller/MainController.java:696 | a single char is kept exactly when it is an ASCII letter or digit |
| JavaStrings.KeepAlnumAppend | desktop/src/main/java/com/devdam/desktop/controller/MainController.java:696 | the filter works char by char: filtering a concatenation concatenates the filtered parts |
| JavaStrings.IntToString | desktop/src/main/java/com/devdam/desktop/service/ConsoleLoggerService.java:127 | decimal rendering of a long: non-empty, a '-' exactly for negatives, and the digits denote the magnitude |
| JavaStrings.IntToStringInjective | desktop/src/main/java/com/devdam/desktop/service/ConsoleLoggerService.java:127 | different durations render differently |
| PackagingServices.RunLog.constructor | desktop/src/main/java/com/devdam/desktop/service/PackagingService.java:23 | a run starts with no log lines, no streamed lines and no processes |
| PackagingServices.RunLog.Emit | desktop/src/main/java/com/devdam/desktop/service/PackagingService.java:101-102 | a line goes to the logs list and to the log consumer |
| PackagingServices.ValidationError | desktop/src/main/java/com/devdam/desktop/service/PackagingService.java:80-96 | no error exactly for a valid configuration; otherwise one of the four messages |
| PackagingServices.ValidationOrder | desktop/src/main/java/com/devdam/desktop/service/PackagingService.java:80-96 | the checks run in the order JAR, application name, main class, output directory, and the first failure wins |
| PackagingServices.Prefixed | desktop/src/main/java/com/devdam/desktop/service/PackagingService.java:129-137 | prefixing keeps one line per input line |
| PackagingServices.ToolLines | desktop/src/main/java/com/devdam/desktop/service/PackagingService.java:125-137 | all stdout lines come first as "<tool>: line", then all stderr lines as "<tool> ERROR: line" |
| PackagingServices.DrainToolOutput | desktop/src/main/java/com/devdam/desktop/service/PackagingService.java:125-138 | the two reader loops log and stream exactly those lines, in that order |
| PackagingServices.JLinkCommand | desktop/src/main/java/com/devdam/desktop/service/PackagingService.java:111-119 | the jlink argv is exactly `jlink --add-modules <comma-joined> --output <runtime> --compress=2 --no-header-files --no-man-pages` |
| PackagingServices.JLinkStage | desktop/src/main/java/com/devdam/desktop/service/PackagingService.java:98-149 | the specification of `createCustomRuntime`: the messages logged, the process started and the runtime path or failure |
| PackagingServices.JPackageStage | desktop/src/main/java/com/devdam/desktop/service/PackagingService.java:151-254 | the specification of `packageWithJPackage`: the messages logged, the jpackage process started and its success |
| PackagingServices.CreateCustomRuntime | desktop/src/main/java/com/devdam/desktop/service/PackagingService.java:98-149 | logs, streamed lines, the started command and the outcome (the runtime path or the failure message) are those of the jlink stage |
| PackagingServices.WithOptions | desktop/src/main/java/com/devdam/desktop/service/PackagingService.java:171-223 | optional pairs extend the mandatory argv, two entries per passed option |
| PackagingServices.AddOption | desktop/src/main/java/com/devdam/desktop/service/PackagingService.java:171-175 | one `if` appends its flag and value when, and only when, its condition holds |
| PackagingServices.Offset | desktop/src/main/java/com/devdam/desktop/service/PackagingService.java:171-223 | the optional part always has an even length (flag-value pairs) |
| PackagingServices.BuildJPackageCommand | desktop/src/main/java/com/devdam/desktop/service/PackagingService.java:158-223 | the argv built step by step is the specified jpackage command, or the NullPointerException for a JAR without a parent |
| PackagingServices.JPackageCommand | desktop/src/main/java/com/devdam/desktop/service/PackagingService.java:158-223 | the specification of the jpackage argv, or the NullPointerException message for a JAR without a parent |
| PackagingServices.AddOptionalArgs | desktop/src/main/java/com/devdam/desktop/service/PackagingService.java:171-223 | the nine conditional blocks append the passed options in their fixed order |
| PackagingServices.PackageWithJPackage | desktop/src/main/java/com/devdam/desktop/service/PackagingService.java:151-254 | effects and outcome are those of the jpackage stage: start message, argv, drained output, exit-code verdict |
| PackagingServices.Caught | desktop/src/main/java/com/devdam/desktop/service/PackagingService.java:66-77 | a caught exception gives an unsuccessful result without an output path, keeping configuration and time |
| PackagingServices.Run | desktop/src/main/java/com/devdam/desktop/service/PackagingService.java:21-78 | a run's result keeps configuration and time, and has an output path exactly when it succeeds |
| PackagingServices.RunValid | desktop/src/main/java/com/devdam/desktop/service/PackagingService.java:31-64 | the same for the part after validation |
| PackagingServices.Finish | desktop/src/main/java/com/devdam/desktop/service/PackagingService.java:43-64 | the same for the jpackage step and the result built from it |
| PackagingServices.PackageApplication | desktop/src/main/java/com/devdam/desktop/service/PackagingService.java:21-78 | the imperative run's result, streamed lines and started processes equal the specification `Run` |
| PackagingServices.OffsetGrows | desktop/src/main/java/com/devdam/desktop/service/PackagingService.java:171-223 | a later option sits after the pair of every earlier passed option |
| PackagingServices.WithOptionsExtends | desktop/src/main/java/com/devdam/desktop/service/PackagingService.java:171-223 | adding options never changes the argv already built |
| PackagingServices.WithOptionsPlacement | desktop/src/main/java/com/devdam/desktop/service/PackagingService.java:171-223 | a passed option's flag and value sit next to each other at its offset |
| PackagingServices.WithOptionsOnlyPassed | desktop/src/main/java/com/devdam/desktop/service/PackagingService.java:171-223 | every flag position of the optional part belongs to a passed option |
| PackagingServices.OptionalFlagsDistinct | desktop/src/main/java/com/devdam/desktop/service/PackagingService.java:173-221 | the nine optional flags are distinct |
| PackagingServices.JPackageCommandPrefix | desktop/src/main/java/com/devdam/desktop/service/PackagingService.java:158-169 | the argv starts with `jpackage --input <parent> --main-jar <file> --main-class <c> --name <n> --dest <dir>`; without a parent it fails with the NPE message |
| PackagingServices.JPackageFlagPlacement | desktop/src/main/java/com/devdam/desktop/service/PackagingService.java:171-223 | each passed option appears as flag then value, in the fixed order |
| PackagingServices.JPackageFlagPresence | desktop/src/main/java/com/devdam/desktop/service/PackagingService.java:171-223 | an optional flag appears in the argv exactly when its condition holds |
| PackagingServices.OptionalArgsFlags | desktop/src/main/java/com/devdam/desktop/service/PackagingService.java:171-223 | the options are checked in the order --app-version, --icon, --vendor, --description, --copyright, --type, --runtime-image, --java-options, --arguments |
| PackagingServices.ValidationFailureStartsNothing | desktop/src/main/java/com/devdam/desktop/service/PackagingService.java:66-77 | a validation failure gives "Packaging failed: " + reason, logs exactly "ERROR: " + reason, and starts no process |
| PackagingServices.FinishOutcome | desktop/src/main/java/com/devdam/desktop/service/PackagingService.java:244-253 | jpackage exit code 0 means success with the output directory; a non-zero code gives "Packaging failed. Check logs for details." and a last log line naming the exit code |
| PackagingServices.NoJLinkUnlessEnabled | desktop/src/main/java/com/devdam/desktop/service/PackagingService.java:37-41 | without enableJLink at most one process, jpackage, is started |
| PackagingServices.JLinkStartedFirst | desktop/src/main/java/com/devdam/desktop/service/PackagingService.java:37-44 | with enableJLink the first process started is the jlink command |
| PackagingServices.JLinkFailureStops | desktop/src/main/java/com/devdam/desktop/service/PackagingService.java:140-143 | a non-zero jlink exit fails the run; jpackage is never started, and the jlink lines already logged are kept |
| PackagingServices.SuccessMeansJPackageSucceeded | desktop/src/main/java/com/devdam/desktop/service/PackagingService.java:44-56 | a successful run reached jpackage and jpackage exited 0 |
| PackagingServices.JPackageSuccessMeansSuccess | desktop/src/main/java/com/devdam/desktop/service/PackagingService.java:44-56 | conversely, a run that reaches jpackage and sees exit 0 succeeds |
| PackagingServices.JPackageStartedLast | desktop/src/main/java/com/devdam/desktop/service/PackagingService.java:44-64 | a run reaching jpackage starts it last, with the runtime image of the jlink step |
| DependencyAnalysisServices.GetAvailableModulesInternal | desktop/src/main/java/com/devdam/desktop/service/DependencyAnalysisService.java:236-256 | the loop collects the name before '@' of every non-blank line with an '@', or throws on a line of only '@' |
| DependencyAnalysisServices.ListingLineOutcome | desktop/src/main/java/com/devdam/desktop/service/DependencyAnalysisService.java:244-251 | one line of `java --list-modules`: trimmed, skipped when empty or without '@', else the text before the first '@' |
| DependencyAnalysisServices.GetAvailableModules | desktop/src/main/java/com/devdam/desktop/service/DependencyAnalysisService.java:74-81 | an exception or spawn failure yields the empty set |
| DependencyAnalysisServices.CollectMembers | desktop/src/main/java/com/devdam/desktop/service/DependencyAnalysisService.java:244-251 | the parse fails exactly when some line throws; otherwise a module is collected exactly when some line lists it |
| DependencyAnalysisServices.AvailableModulesMembers | desktop/src/main/java/com/devdam/desktop/service/DependencyAnalysisService.java:74-81 | a module is available exactly when the listing ran, no line threw, and some line lists it |
| DependencyAnalysisServices.ListedNameIsTextBeforeAt | desktop/src/main/java/com/devdam/desktop/service/DependencyAnalysisService.java:248 | a listed name is the trimmed line's text before its first '@' |
| DependencyAnalysisServices.ThrowsExactlyOnAtSigns | desktop/src/main/java/com/devdam/desktop/service/DependencyAnalysisService.java:246-248 | `split("@")[0]` throws exactly for a trimmed line made only of '@' |
| DependencyAnalysisServices.IsModuleAvailable | desktop/src/main/java/com/devdam/desktop/service/DependencyAnalysisService.java:171-188 | a module is available exactly when it is in the snapshot; the problematic-module branch changes nothing |
| DependencyAnalysisServices.IsProblematicModule | desktop/src/main/java/com/devdam/desktop/service/DependencyAnalysisService.java:190-197 | the three named JFR and agent modules, any "jdk.internal." module and any name containing "incubator" |
| DependencyAnalysisServices.AddAvailableNames | desktop/src/main/java/com/devdam/desktop/service/DependencyAnalysisService.java:109-118 | the inner loop adds to the set exactly the trimmed names of one line that pass the availability filter |
| DependencyAnalysisServices.CollectJdepsModules | desktop/src/main/java/com/devdam/desktop/service/DependencyAnalysisService.java:106-121 | the nested loops collect exactly the specified set |
| DependencyAnalysisServices.AvailableAmongMembers | desktop/src/main/java/com/devdam/desktop/service/DependencyAnalysisService.java:111-119 | of one line's names, exactly the available ones are kept |
| DependencyAnalysisServices.UnionAvailableMembers | desktop/src/main/java/com/devdam/desktop/service/DependencyAnalysisService.java:106-121 | over all accepted lines, a module is collected exactly when it is available and named on one of them |
| DependencyAnalysisServices.JdepsModulesMembers | desktop/src/main/java/com/devdam/desktop/service/DependencyAnalysisService.java:106-121 | the same, stated over the jdeps output lines |
| DependencyAnalysisServices.JdepsModulesAvailable | desktop/src/main/java/com/devdam/desktop/service/DependencyAnalysisService.java:114-118 | every module taken from jdeps is available |
| DependencyAnalysisServices.GetDefaultJavaFXModules | desktop/src/main/java/com/devdam/desktop/service/DependencyAnalysisService.java:145-169 | exactly the available ones of the eleven default modules |
| DependencyAnalysisServices.AddEssentialJavaFXModules | desktop/src/main/java/com/devdam/desktop/service/DependencyAnalysisService.java:219-234 | adds exactly the available essential JavaFX modules to the set |
| DependencyAnalysisServices.EssentialsAmongDefaults | desktop/src/main/java/com/devdam/desktop/service/DependencyAnalysisService.java:145-234 | the essential JavaFX modules are among the defaults |
| DependencyAnalysisServices.IsJavaFXApplication | desktop/src/main/java/com/devdam/desktop/service/DependencyAnalysisService.java:199-217 | true exactly when the listing ran and some entry contains "javafx" or "JavaFX" |
| DependencyAnalysisServices.IsJavaFXListing | desktop/src/main/java/com/devdam/desktop/service/DependencyAnalysisService.java:199-217 | the specification of the JavaFX check: the listing ran and some entry mentions JavaFX |
| DependencyAnalysisServices.GetRequiredModules | desktop/src/main/java/com/devdam/desktop/service/DependencyAnalysisService.java:95-143 | jdeps' available modules, or the defaults on a non-zero exit or an empty set, plus the JavaFX essentials for a JavaFX JAR |
| DependencyAnalysisServices.FindMissingModules | desktop/src/main/java/com/devdam/desktop/service/DependencyAnalysisService.java:258-262 | the missing modules are the required ones that are not available, and no others |
| DependencyAnalysisServices.ManifestMainClassIsFirstMatch | desktop/src/main/java/com/devdam/desktop/service/DependencyAnalysisService.java:299-303 | the first line starting "Main-Class:" gives the trimmed rest |
| DependencyAnalysisServices.ManifestMainClass | desktop/src/main/java/com/devdam/desktop/service/DependencyAnalysisService.java:299-309 | the specification of the manifest lookup: the trimmed rest of the first "Main-Class:" line, or null |
| DependencyAnalysisServices.ManifestMainClassNone | desktop/src/main/java/com/devdam/desktop/service/DependencyAnalysisService.java:299-309 | null exactly when no line starts with "Main-Class:" |
| DependencyAnalysisServices.ExtractMainClassFromManifest | desktop/src/main/java/com/devdam/desktop/service/DependencyAnalysisService.java:288-310 | the manifest scan, or null without a parent directory or a manifest |
| DependencyAnalysisServices.DetectMainClass | desktop/src/main/java/com/devdam/desktop/service/DependencyAnalysisService.java:264-286 | the manifest is read only when the JAR listing has the entry "META-INF/MANIFEST.MF" |
| DependencyAnalysisServices.GetSuggestedModules | desktop/src/main/java/com/devdam/desktop/service/DependencyAnalysisService.java:312-332 | sixteen distinct suggestions that include every default module |
| DependencyAnalysisServices.AnalyzeJar | desktop/src/main/java/com/devdam/desktop/service/DependencyAnalysisService.java:19-72 | the imperative analysis equals the specification `Analyze` |
| DependencyAnalysisServices.Analyze | desktop/src/main/java/com/devdam/desktop/service/DependencyAnalysisService.java:19-72 | the specification of `analyzeJar`: the fallback result without jdeps, otherwise the jdeps or default required set, the available modules and the main class |
| DependencyAnalysisServices.AnalysisAlwaysSucceeds | desktop/src/main/java/com/devdam/desktop/service/DependencyAnalysisService.java:30-70 | every branch reports success, with the JAR path, the available modules and the detected main class |
| DependencyAnalysisServices.RequiredModulesAvailable | desktop/src/main/java/com/devdam/desktop/service/DependencyAnalysisService.java:42-54 | required modules are always available, so nothing is ever reported missing |
| DependencyAnalysisServices.ErrorMessageMarksFallback | desktop/src/main/java/com/devdam/desktop/service/DependencyAnalysisService.java:24-39 | an error message appears exactly when jdeps is unavailable or cannot start, and then the defaults are required |
| DependencyAnalysisServices.JdepsPathRequired | desktop/src/main/java/com/devdam/desktop/service/DependencyAnalysisService.java:129-140 | with jdeps running, the required set is jdeps' modules or the defaults, plus the essentials exactly for a JavaFX JAR |
| MainControllers.JarStem | desktop/src/main/java/com/devdam/desktop/controller/MainController.java:331-333 | a name whose lower case ends in ".jar" loses exactly those four chars; any other name is kept |
| MainControllers.LastVersionIndex | desktop/src/main/java/com/devdam/desktop/controller/MainController.java:343-350 | the rightmost part matching the version pattern, or none when no part matches |
| MainControllers.JarNameParts | desktop/src/main/java/com/devdam/desktop/controller/MainController.java:328-358 | the name is empty exactly for an empty stem, a found version matches the pattern, and with no version the whole stem is the name |
| MainControllers.SplitJarFileName | desktop/src/main/java/com/devdam/desktop/controller/MainController.java:328-358 | the reverse loop with `break` computes the specified name and version |
| MainControllers.JarVersionFound | desktop/src/main/java/com/devdam/desktop/controller/MainController.java:340-350 | a version is found exactly when there are two or more dash-separated parts and one of them matches |
| MainControllers.JarNameIsStemText | desktop/src/main/java/com/devdam/desktop/controller/MainController.java:343-348 | when a version splits the stem, the stem begins with name + "-" + version |
| MainControllers.JarNameFromRightmostVersion | desktop/src/main/java/com/devdam/desktop/controller/MainController.java:340-350 | a found version is the rightmost matching dash part; the name is the parts before it joined by dashes, or the stem when that join is empty |
| MainControllers.NonEmpty | desktop/src/main/java/com/devdam/desktop/controller/MainController.java:402-403 | exactly the non-empty words are kept; with `NonEmptyAppend` and `NonEmptyOne`, in their order |
| MainControllers.NonEmptyAppend | desktop/src/main/java/com/devdam/desktop/controller/MainController.java:402-403 | skipping empty words distributes over concatenation, so the kept words keep their order |
| MainControllers.NonEmptyOne | desktop/src/main/java/com/devdam/desktop/controller/MainController.java:402-403 | a single word is kept exactly when it is not empty |
| MainControllers.TitleAll | desktop/src/main/java/com/devdam/desktop/controller/MainController.java:407-410 | one title-cased word per word: the i-th result is `TitleWord` of the i-th word |
| MainControllers.TitledPrefixStep | desktop/src/main/java/com/devdam/desktop/controller/MainController.java:402-412 | one loop step adds one title-cased word, or nothing for an empty word |
| MainControllers.JoinTitledSnoc | desktop/src/main/java/com/devdam/desktop/controller/MainController.java:404-410 | a space goes before a word only when the builder is not empty |
| MainControllers.FormatApplicationName | desktop/src/main/java/com/devdam/desktop/controller/MainController.java:394-415 | the StringBuilder loop computes the specified `FormattedName` |
| MainControllers.FormattedName | desktop/src/main/java/com/devdam/desktop/controller/MainController.java:394-415 | the specification of the formatting: dashes and underscores become spaces, the non-empty whitespace-separated words are title-cased and joined by single spaces |
| MainControllers.TitleWordChars | desktop/src/main/java/com/devdam/desktop/controller/MainController.java:407-410 | title-casing keeps a word a word and is idempotent |
| MainControllers.WordShape | desktop/src/main/java/com/devdam/desktop/controller/MainController.java:399-403 | a word has no dash and is single-spaced |
| MainControllers.SpacedConcat | desktop/src/main/java/com/devdam/desktop/controller/MainController.java:404-406 | joining two such texts with one space keeps them single-spaced |
| MainControllers.JoinOfWords | desktop/src/main/java/com/devdam/desktop/controller/MainController.java:402-414 | words joined by single spaces are single-spaced, without dashes, and do not start or end with whitespace |
| MainControllers.SplitWords | desktop/src/main/java/com/devdam/desktop/controller/MainController.java:396-403 | every word of a name is a word in the sense above |
| MainControllers.TitledWords | desktop/src/main/java/com/devdam/desktop/controller/MainController.java:407-410 | title-cased words are words and are fixed points of title-casing |
| MainControllers.FormattedNameShape | desktop/src/main/java/com/devdam/desktop/controller/MainController.java:394-415 | a formatted name has no dashes, no leading, trailing or double spaces |
| MainControllers.FormattedNameIdempotent | desktop/src/main/java/com/devdam/desktop/controller/MainController.java:394-415 | formatting a formatted name changes nothing |
| MainControllers.DehyphenNoDashes | desktop/src/main/java/com/devdam/desktop/controller/MainController.java:396 | replacing hyphens and underscores changes a text without them in no way |
| MainControllers.WordsOfJoin | desktop/src/main/java/com/devdam/desktop/controller/MainController.java:396-403 | re-reading words joined by spaces gives the words back |
| MainControllers.SplitOfWords | desktop/src/main/java/com/devdam/desktop/controller/MainController.java:399 | `split("\\s+")` of space-joined words is the words, or [""] for none |
| MainControllers.KeepAlnumDropWhitespace | desktop/src/main/java/com/devdam/desktop/controller/MainController.java:420 | removing whitespace first does not change the alphanumeric filter's result |
| MainControllers.OutputFolderName | desktop/src/main/java/com/devdam/desktop/controller/MainController.java:420 | the folder is the name's ASCII letters and digits followed by "BuildOutput", all alphanumeric |
| MainControllers.OutputDirectory | desktop/src/main/java/com/devdam/desktop/controller/MainController.java:423-424 | the output directory is <home>/Desktop/<folder> |
| MainControllers.PresetNameFor | desktop/src/main/java/com/devdam/desktop/controller/MainController.java:706-711 | a preset name exactly for a non-blank name: the trimmed name and " Preset" |
| MainControllers.FormatVendorName | desktop/src/main/java/com/devdam/desktop/controller/MainController.java:690-704 | a vendor results exactly when the input is non-null and has an ASCII letter or digit |
| MainControllers.FormatVendorNameShape | desktop/src/main/java/com/devdam/desktop/controller/MainController.java:696-703 | the vendor is the alphanumeric chars, first upper-cased and the rest lower-cased |
| MainControllers.TitleWordCase | desktop/src/main/java/com/devdam/desktop/controller/MainController.java:703 | title-casing keeps length and letters up to case: first not lower, rest not upper |
| MainControllers.KeepAlnumEmpty | desktop/src/main/java/com/devdam/desktop/controller/MainController.java:696-700 | the filter leaves nothing exactly when there is no ASCII letter or digit |
| MainControllers.ExtractVendorFromMainClass | desktop/src/main/java/com/devdam/desktop/controller/MainController.java:656-688 | null for a null or blank class and for fewer than two package parts; with three or more parts and a first part of com/org/net/io, the formatted second part; with exactly two parts, or three or more under another first part, the formatted first part |
| MainControllers.VendorIsTitledWord | desktop/src/main/java/com/devdam/desktop/controller/MainController.java:656-704 | an extracted vendor is a non-empty alphanumeric word, capitalised and otherwise lower-case |
| MainControllers.GetFirstNonNull | desktop/src/main/java/com/devdam/desktop/controller/MainController.java:647-654 | the first value with text, or null exactly when none has text |
| MainControllers.MainForm.constructor | desktop/src/main/java/com/devdam/desktop/controller/MainController.java:174 | the check-list starts as the suggested modules, none checked |
| MainControllers.MainForm.UpdatePresetNameField | desktop/src/main/java/com/devdam/desktop/controller/MainController.java:706-711 | the field becomes the preset name for a non-blank name, and is left alone otherwise |
| MainControllers.MainForm.SetOutputDirectoryFromAppName | desktop/src/main/java/com/devdam/desktop/controller/MainController.java:417-432 | the field becomes the text of the output directory for the name |
| MainControllers.MainForm.PopulateFieldsFromJarFile | desktop/src/main/java/com/devdam/desktop/controller/MainController.java:326-392 | a non-empty name is formatted and drives name, output directory and preset; a found version is set; the vendor is always "DevDam" |
| MainControllers.MainForm.FillFromJarName | desktop/src/main/java/com/devdam/desktop/controller/MainController.java:360-379 | the name drives name, output directory and preset fields only when non-empty; the version only when found; the vendor is always "DevDam" |
| MainControllers.MainForm.ApplyAppName | desktop/src/main/java/com/devdam/desktop/controller/MainController.java:361-370 | the formatted name drives name, output directory and preset fields |
| MainControllers.MainForm.UpdateModulesList | desktop/src/main/java/com/devdam/desktop/controller/MainController.java:713-729 | missing modules are appended in order and exactly the required modules end up checked |
| MainControllers.MainForm.AddCustomModule | desktop/src/main/java/com/devdam/desktop/controller/MainController.java:871-878 | a new non-empty trimmed name is appended and checked and the field cleared; otherwise nothing changes |
| MainControllers.MainForm.ListModule | desktop/src/main/java/com/devdam/desktop/controller/MainController.java:873-877 | the same for a given trimmed name |
| ModuleLists.IndexOf | desktop/src/main/java/com/devdam/desktop/ui/panels/AdvancedOptionsPanel.java:193 | `indexOf` gives the first index holding the name, or -1 exactly when it is absent |
| ModuleLists.AppendMissing | desktop/src/main/java/com/devdam/desktop/controller/MainController.java:715-719 | the old items stay in place as a prefix, only absent modules are appended, the members are the union, and distinctness is kept |
| ModuleLists.AppendMissingIdempotent | desktop/src/main/java/com/devdam/desktop/controller/MainController.java:715-719 | a second pass with the same modules appends nothing |
| ModuleLists.AppendNothingMissing | desktop/src/main/java/com/devdam/desktop/controller/MainController.java:715-719 | modules already listed append nothing |
| ConfigurationServices.PresetFile | desktop/src/main/java/com/devdam/desktop/service/ConfigurationService.java:36 | a preset's file is its name followed by ".json" |
| ConfigurationServices.PresetFileInjective | desktop/src/main/java/com/devdam/desktop/service/ConfigurationService.java:36 | distinct presets live in distinct files |
| ConfigurationServices.LoadFrom | desktop/src/main/java/com/devdam/desktop/service/ConfigurationService.java:41-50 | loading fails with "Preset not found: " + name exactly when the file is absent |
| ConfigurationServices.SaveThenLoad | desktop/src/main/java/com/devdam/desktop/service/ConfigurationService.java:35-50 | loading a preset just saved gives it back |
| ConfigurationServices.SaveKeepsOthers | desktop/src/main/java/com/devdam/desktop/service/ConfigurationService.java:35-50 | saving one preset leaves every other preset as it loads |
| ConfigurationServices.DeleteThenLoad | desktop/src/main/java/com/devdam/desktop/service/ConfigurationService.java:41-78 | a deleted preset is not found, and every other preset loads as before |
| ConfigurationServices.LastIndexOf | desktop/src/main/java/com/devdam/desktop/service/ConfigurationService.java:61 | `lastIndexOf` is the last index holding the char, or -1 exactly when there is none |
| ConfigurationServices.PresetNameOfFile | desktop/src/main/java/com/devdam/desktop/service/ConfigurationService.java:60-61 | the name listed for a preset's file is the preset's name |
| ConfigurationServices.PresetNames | desktop/src/main/java/com/devdam/desktop/service/ConfigurationService.java:57-63 | at most one name per listed file |
| ConfigurationServices.PresetNamesMembers | desktop/src/main/java/com/devdam/desktop/service/ConfigurationService.java:57-63 | a name is listed exactly when a ".json" file carries it |
| ConfigurationServices.SavedPresetListed | desktop/src/main/java/com/devdam/desktop/service/ConfigurationService.java:35-70 | every saved preset is listed back under its name |
| ConfigurationServices.DefaultConfiguration | desktop/src/main/java/com/devdam/desktop/service/ConfigurationService.java:80-86 | the current platform, an app image, no jlink, and every other field null |
| ConfigurationServices.ConfigurationService.constructor | desktop/src/main/java/com/devdam/desktop/service/ConfigurationService.java:23-33 | the store starts with the directory's files, or empty when the directory could not be created |
| ConfigurationServices.ConfigurationService.SavePreset | desktop/src/main/java/com/devdam/desktop/service/ConfigurationService.java:35-39 | the write succeeds exactly in an existing directory for a name without '/', and then stores the configuration under the preset's file |
| ConfigurationServices.ConfigurationService.LoadPreset | desktop/src/main/java/com/devdam/desktop/service/ConfigurationService.java:41-50 | the outcome is the specified load |
| ConfigurationServices.ConfigurationService.DeletePreset | desktop/src/main/java/com/devdam/desktop/service/ConfigurationService.java:72-78 | the preset's file is removed if present, and nothing else changes |
| ConfigurationServices.ConfigurationService.GetAvailablePresets | desktop/src/main/java/com/devdam/desktop/service/ConfigurationService.java:52-70 | the names of the ".json" files in listing order, empty if the directory is missing or the listing fails; every saved preset is among them |
| ConsoleLoggerServices.CategoryTag | desktop/src/main/java/com/devdam/desktop/service/ConsoleLoggerService.java:46-50 | the tag is a single space exactly for a null or blank category |
| ConsoleLoggerServices.DisplayLine | desktop/src/main/java/com/devdam/desktop/service/ConsoleLoggerService.java:41-52 | the console line: "[time] ", the icon, the name padded to eight, the category tag, the message |
| ConsoleLoggerServices.HistoryEntry | desktop/src/main/java/com/devdam/desktop/service/ConsoleLoggerService.java:55-56 | the history entry: "[full time] ", the name, the category verbatim unless null, a space, the message |
| ConsoleLoggerServices.DisplayLineColumns | desktop/src/main/java/com/devdam/desktop/service/ConsoleLoggerService.java:42-52 | without a category the message starts at the same column for every level: time, icon, the name padded to eight, one space |
| ConsoleLoggerServices.HistoryEntryNamesLevel | desktop/src/main/java/com/devdam/desktop/service/ConsoleLoggerService.java:55-56 | entries with the same timestamp and different levels differ |
| ConsoleLoggerServices.HistoryEntryKeepsMessage | desktop/src/main/java/com/devdam/desktop/service/ConsoleLoggerService.java:55-56 | for the same level, category and time, the entry determines the message |
| ConsoleLoggerServices.ConsoleLoggerService.constructor | desktop/src/main/java/com/devdam/desktop/service/ConsoleLoggerService.java:16-18 | no console attached and an empty history |
| ConsoleLoggerServices.ConsoleLoggerService.SetConsoleArea | desktop/src/main/java/com/devdam/desktop/service/ConsoleLoggerService.java:27-29 | later lines go to the given area |
| ConsoleLoggerServices.ConsoleLoggerService.Show | desktop/src/main/java/com/devdam/desktop/service/ConsoleLoggerService.java:60-63 | text is appended only when an area is attached |
| ConsoleLoggerServices.ConsoleLoggerService.Log | desktop/src/main/java/com/devdam/desktop/service/ConsoleLoggerService.java:35-70 | exactly one history entry is appended, and the console gets the display line and a newline |
| ConsoleLoggerServices.ConsoleLoggerService.Info | desktop/src/main/java/com/devdam/desktop/service/ConsoleLoggerService.java:73-79 | `log` at INFO, with a null category for the one-argument overload |
| ConsoleLoggerServices.ConsoleLoggerService.Success | desktop/src/main/java/com/devdam/desktop/service/ConsoleLoggerService.java:81-87 | `log` at SUCCESS |
| ConsoleLoggerServices.ConsoleLoggerService.Warning | desktop/src/main/java/com/devdam/desktop/service/ConsoleLoggerService.java:89-95 | `log` at WARNING |
| ConsoleLoggerServices.ConsoleLoggerService.Error | desktop/src/main/java/com/devdam/desktop/service/ConsoleLoggerService.java:97-103 | `log` at ERROR |
| ConsoleLoggerServices.ConsoleLoggerService.Debug | desktop/src/main/java/com/devdam/desktop/service/ConsoleLoggerService.java:105-111 | `log` at DEBUG |
| ConsoleLoggerServices.ConsoleLoggerService.Progress | desktop/src/main/java/com/devdam/desktop/service/ConsoleLoggerService.java:113-119 | `log` at PROGRESS |
| ConsoleLoggerServices.ConsoleLoggerService.StartOperation | desktop/src/main/java/com/devdam/desktop/service/ConsoleLoggerService.java:122-124 | one INFO entry "Starting: op" under OPERATION, and the console gains its display line and a newline |
| ConsoleLoggerServices.ConsoleLoggerService.CompleteOperation | desktop/src/main/java/com/devdam/desktop/service/ConsoleLoggerService.java:126-128 | one SUCCESS entry "Completed: op (took Nms)" under OPERATION, and the console gains its display line and a newline |
| ConsoleLoggerServices.ConsoleLoggerService.FailOperation | desktop/src/main/java/com/devdam/desktop/service/ConsoleLoggerService.java:130-132 | one ERROR entry "Failed: op - reason" under OPERATION, and the console gains its display line and a newline |
| ConsoleLoggerServices.ConsoleLoggerService.Clear | desktop/src/main/java/com/devdam/desktop/service/ConsoleLoggerService.java:134-143 | the history is emptied, and an attached console is blanked |
| ConsoleLoggerServices.ConsoleLoggerService.GetLogHistory | desktop/src/main/java/com/devdam/desktop/service/ConsoleLoggerService.java:145-149 | the returned entries are the history, as a value later calls cannot change |
| ConsoleLoggerServices.ConsoleLoggerService.Separator | desktop/src/main/java/com/devdam/desktop/service/ConsoleLoggerService.java:152-159 | an 80-char rule and a newline go to the console; the history is untouched |
| ConsoleLoggerServices.ConsoleLoggerService.Section | desktop/src/main/java/com/devdam/desktop/service/ConsoleLoggerService.java:161-171 | the upper-cased title between two rules goes to the console; the history is untouched |
| ConsoleLoggerServices.HistoryScenario | desktop/src/main/java/com/devdam/desktop/service/ConsoleLoggerService.java:66-149 | two log calls give two entries; separators and sections add none; a history taken before `clear` keeps its entries; after `clear` only new entries remain |
| AdvancedOptionsPanels.CommonModulesDistinct | desktop/src/main/java/com/devdam/desktop/ui/panels/AdvancedOptionsPanel.java:59-82 | the initial list holds fifteen distinct modules, in the declared order |
| AdvancedOptionsPanels.ArgsOf | desktop/src/main/java/com/devdam/desktop/ui/panels/AdvancedOptionsPanel.java:167-181 | no arguments exactly for blank text; no argument holds a line break |
| AdvancedOptionsPanels.ArgsText | desktop/src/main/java/com/devdam/desktop/ui/panels/AdvancedOptionsPanel.java:206-220 | a null or empty list writes "" |
| AdvancedOptionsPanels.ArgsRoundTrip | desktop/src/main/java/com/devdam/desktop/ui/panels/AdvancedOptionsPanel.java:167-220 | set then get gives the list back when no argument holds a line break and the outer ends are not trimmed away |
| AdvancedOptionsPanels.TextRoundTrip | desktop/src/main/java/com/devdam/desktop/ui/panels/AdvancedOptionsPanel.java:167-220 | get then set gives the text back, trimmed |
| AdvancedOptionsPanels.BlankLinesKept | desktop/src/main/java/com/devdam/desktop/ui/panels/AdvancedOptionsPanel.java:167-173 | a blank interior line is read as an empty argument |
| AdvancedOptionsPanels.AdvancedOptionsPanel.constructor | desktop/src/main/java/com/devdam/desktop/ui/panels/AdvancedOptionsPanel.java:29-57 | jlink off, the fifteen common modules listed, nothing selected, empty texts |
| AdvancedOptionsPanels.AdvancedOptionsPanel.AddCustomModule | desktop/src/main/java/com/devdam/desktop/ui/panels/AdvancedOptionsPanel.java:149-155 | a new non-empty trimmed name is appended and the field cleared; otherwise nothing changes |
| AdvancedOptionsPanels.AdvancedOptionsPanel.IsJLinkEnabled | desktop/src/main/java/com/devdam/desktop/ui/panels/AdvancedOptionsPanel.java:158-160 | reports the jlink switch |
| AdvancedOptionsPanels.AdvancedOptionsPanel.SetJLinkEnabled | desktop/src/main/java/com/devdam/desktop/ui/panels/AdvancedOptionsPanel.java:184-187 | sets the jlink switch |
| AdvancedOptionsPanels.AdvancedOptionsPanel.GetSelectedModules | desktop/src/main/java/com/devdam/desktop/ui/panels/AdvancedOptionsPanel.java:162-165 | the selected names, all of them listed |
| AdvancedOptionsPanels.AdvancedOptionsPanel.SetSelectedModules | desktop/src/main/java/com/devdam/desktop/ui/panels/AdvancedOptionsPanel.java:189-204 | the selection becomes exactly the given modules; unknown ones are appended while existing items keep their places; null empties the selection and keeps the list |
| AdvancedOptionsPanels.AdvancedOptionsPanel.GetJvmArgs | desktop/src/main/java/com/devdam/desktop/ui/panels/AdvancedOptionsPanel.java:167-173 | the arguments read off the JVM text |
| AdvancedOptionsPanels.AdvancedOptionsPanel.GetAppArgs | desktop/src/main/java/com/devdam/desktop/ui/panels/AdvancedOptionsPanel.java:175-181 | the arguments read off the application text |
| AdvancedOptionsPanels.AdvancedOptionsPanel.SetJvmArgs | desktop/src/main/java/com/devdam/desktop/ui/panels/AdvancedOptionsPanel.java:206-212 | the JVM text written for the list |
| AdvancedOptionsPanels.AdvancedOptionsPanel.SetAppArgs | desktop/src/main/java/com/devdam/desktop/ui/panels/AdvancedOptionsPanel.java:214-220 | the application text written for the list |
| AdvancedOptionsPanels.AdvancedOptionsPanel.Reset | desktop/src/main/java/com/devdam/desktop/ui/panels/AdvancedOptionsPanel.java:223-230 | jlink off, nothing selected, field and texts empty; the list items are kept |

## Left out

- **External processes.** `ProcessBuilder`, `waitFor`, the reader threads, and the
  `isJdepsAvailable`, `isJPackageAvailable` and `isJLinkAvailable` probes are not
  modelled. Each process is a `ToolRun`: either its stdout and stderr lines and exit
  code, or the message `start` throws. Stdout is drained before stderr, as in the source.
- **The file system.** `Files.exists` is a set of existing paths. A failing
  `createDirectories` is an optional message. The runtime image's existence after jlink
  is a flag. `deleteDirectory`'s reverse-sorted walk is not modelled: it only removes
  an old runtime.
- **Manifest extraction.** `jar -xf` writes the manifest to disk, which is not modelled.
  The extracted manifest lines are an input.
- **Module availability.** `isModuleAvailable` re-runs `java --list-modules` on every
  call. The model uses one fixed snapshot.
- **Sets as sequences.** `HashSet` iteration order is unspecified. Where the source
  iterates a set (`updateModulesList`, `setSelectedModules`, the jlink `--add-modules`
  join), the model takes the elements as a sequence in some order.
- **Jackson serialisation.** It is taken to be lossless: a preset file holds the
  configuration itself.
- `ConfigurationServices.ConfigurationService.SavePreset`: the preset store is one flat
  directory, so a name holding '/' fails to save. Java's `resolve(name + ".json")` can
  still succeed for such a name: an absolute name, a `..` name, or one that leads into
  an existing sub-directory. Those paths are not modelled, and neither are other write,
  read and delete I/O failures.
- **slf4j logging.** Every `log.debug`, `log.info`, `log.warn` and `log.error` call in
  `PackagingService`, `DependencyAnalysisService` and `ConfigurationService` (for
  example `PackagingService.java` lines 26, 67 and 264) only writes to the application
  log. These calls change no state the model keeps, so they are not modelled. The
  packaging `logs` list and the `logConsumer` messages are modelled, as a trace.
- **Directory listing order.** The order `Files.list` returns is an input.
- `saveConfigurationToFile`, `loadConfigurationFromFile`: not modelled. They are the same
  Jackson calls on an arbitrary path, outside the preset store.
- **The clock.** `System.currentTimeMillis` and `LocalDateTime.now` are not modelled.
  Elapsed time and both formatted timestamps are parameters.
- **`user.home`.** The user's home directory is a parameter.
- **Concurrency.** `SwingUtilities.invokeLater` and the `synchronized` block in the
  logger are not modelled. Console updates happen at once, in call order.
- **The caret position.** `setCaretPosition` only moves the caret, so it is not modelled.
- **Logger setters.** `ConsoleLoggerService.setConsolePanel` only forwards the panel's
  text area, which `SetConsoleArea` covers. The panel widget itself is not modelled.
- **Null message text.** Messages, operations and reasons are non-null strings. Java
  would render a null one as "null".
- **Case mapping.** `toUpperCase`, `toLowerCase` and `Character.toUpperCase` are
  modelled on ASCII letters only. Locale-dependent and non-ASCII case mapping is not
  captured.
- **Module Unicode.** Dafny strings hold Unicode scalar values, and Java strings hold
  UTF-16 units. The two agree on every constant here except the length of the DEBUG
  icon, which is not used in any proof about lengths.
- `populateAppConfigFromManifest` and the start-class branch of the controller: not
  modelled. They call getters that `DependencyAnalysis` does not have. Only
  `getFirstNonNull` and the vendor helpers are kept.
- **UI code.** Widgets, layout, painting, themes, splash, setup guide, preferences and
  the progress-bar animation are not modelled. The panel's
  `updateJLinkComponentsState` only enables widgets.
- **A null JAR path.** A null path passed to `analyzeJar` is not modelled. It throws
  before the analysis starts.
- `DependencyAnalysisServices.IsProblematicModule`: it is kept, but it has no effect,
  because `isModuleAvailable` returns `available` on both branches.

Notes on what the code does, which the model follows:

- **analyzeJar success.** `analyzeJar` reports `success=true` on every path, including
  a JAR that does not exist, because the exception branch also returns success.
- **Version parts.** A version part matches `\d+(\.\d+)*.*` with `matches()`. Since '.'
  does not match a line terminator, this means "starts with an ASCII digit and holds no
  line terminator".
- **`\s+` splitting.** `split("\\s+")` and splitting at single whitespace chars differ
  only in empty pieces, which `formatApplicationName` skips.
- **Blank argument lines.** `getJvmArgs` and `getAppArgs` keep blank interior lines as
  empty arguments.
