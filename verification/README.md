# Cross-platform app test harness: a Dafny model of its orchestration core

This project models the decision logic of the `cross-platforms-app` test harness:

- the three emulator helpers, `EmulatorManager`, its predecessor `EmulatorManagerOld`, and the first sketch `EmulatorSetupTest`;
- how capability files are found and loaded (`CapabilitiesLoader`);
- the Appium server life cycle (`AppiumServerManager`);
- flattening a JSON tree into key/value pairs (`JsonAttributeValueExtractor`);
- how `LoginTest` settles the Appium endpoint;
- the retry counter (`RetryAnalyzer`).

Everything the Java code reaches outside the JVM becomes a parameter:

- **Environment and properties:** the environment, `os.name` and `user.home` are a `Host`.
- **Files:** the file system is sets of existing, executable and readable paths. The class path is a set of resource paths.
- **Processes:** a process is an oracle from an argv to a reply. The reply is the lines read and an exit code, or an `IOException`, or an interrupted wait.
- **Boot loop:** each iteration of a boot loop is an oracle entry. It holds the milliseconds the iteration takes beyond its 5 s pause, whether the pause was interrupted, and the probe's reply. The clock is the start time plus the time every earlier iteration took, so it never runs backwards.
- **Parsers:** the JSON and YAML parsers are oracles from a path to a parsed document.

Each manager operation returns the commands it issued (`Run` waits for the process, `Spawn` does not). It also returns its outcome, with `Err` carrying the runtime exception's message.

Modules:

| module | file | models |
|---|---|---|
| `Results`, `Text`, `Process`, `Platform`, `JavaValues` | `results.dfy`, `text.dfy`, `process.dfy`, `platform.dfy`, `java_values.dfy` | shared pieces: `Option`/`Result`; ASCII `toLowerCase`, `contains`, `trim`, decimal rendering and `Integer.parseInt`; line collection and `executeCommand`; host and file system; Java values and `toString` |
| `EmulatorManager` | `emulator_manager.dfy` | SDK-root precedence, OS detection, the command lines, the inverted availability check, the deadline-bounded boot loop (a reference function and a loop method proved equal), start and stop |
| `EmulatorManagerOld` | `emulator_manager_old.dfy` | the same operations without environment, availability checks or timeouts, and the boot loop without a deadline |
| `EmulatorSetupTest` | `emulator_setup_test.dfy` | the fixed SDK root and the three commands, all run synchronously |
| `CapabilitiesLoader` | `capabilities_loader.dfy` | candidate paths, JSON before YAML, the two loaders and their errors |
| `AppiumServerManager` | `appium_server_manager.dfy` | the service state machine and any sequence of calls on it |
| `JsonAttributeValueExtractor` | `json_attribute_value_extractor.dfy` | flattening, proved equal to rendering the tree's leaf paths; `getSafeValue`; `validateFile` |
| `LoginTest` | `login_test.dfy` | the default-reading helpers, the environment overrides and the remote URL |
| `RetryAnalyzer` | `retry_analyzer.dfy` | the bounded retry counter |

Where the comments in the code and the code disagree, the model follows the code:

- **`checkCommandAvailability`:** its comment says it returns `true` for a usable command. It returns `true` for an UNusable one, and its callers rely on that.
- **`startServer`:** its comment promises a restart of a running server. The code leaves a running server alone.
- **`startServer` with no service:** it tests for a missing service and then calls `start` on it anyway. The model makes that a fault. `ConstructedManagerKeepsItsConfig` shows that a manager built by the constructor never reaches it.

## Model

| member | source | states |
|---|---|---|
| `Text.Lower` | src/main/java/utils/CapabilitiesLoader.java:18-19 | `toLowerCase` on ASCII: same length, every upper-case letter replaced by the letter whose code is 32 higher ('A' (65) becomes 'a' (97)), every other character kept |
| `Text.LowerIdempotent` | src/main/java/base/EmulatorManager.java:46-47 | lower-casing twice is lower-casing once and leaves no upper-case letter |
| `Text.ContainsPart` | src/main/java/utils/CapabilitiesLoader.java:33 | a message built by concatenation contains each of its parts |
| `Text.TrimIsSlice` | src/main/java/base/EmulatorManager.java:284 | `trim` keeps a contiguous slice with only blanks (code at most U+0020) cut from both ends, and the slice neither starts nor ends with a blank |
| `Text.TrimEmptyIff` | src/main/java/base/EmulatorManager.java:284 | a string trims to nothing exactly when all of its characters are blank |
| `Text.IntToDecimal` | src/test/java/tests/LoginTest.java:51 | `%d` rendering: a leading '-' exactly for negative numbers, then digits with no leading zero ("0" exactly for zero) whose decimal value is the number's absolute value |
| `Text.ParseInt` | src/test/java/tests/LoginTest.java:47 | `Integer.parseInt` succeeds exactly on an optional sign followed by at least one digit whose value fits in an `int`, and returns that value |
| `Text.ParseIntOfDecimal` | src/test/java/tests/LoginTest.java:124 | `Integer.parseInt` reads back the decimal rendering of every `int` |
| `Text.ParseIntRejectsWide` | src/test/java/tests/LoginTest.java:124-126 | the rendering of a number outside the `int` range is always rejected |
| `Process.ExecuteCommand` | src/main/java/base/EmulatorManager.java:219-256 | a finished command yields its collected output whatever its exit code; an `IOException` passes through; an interrupted wait becomes a runtime exception |
| `Process.SplitCollect` | src/main/java/base/EmulatorManager.java:229-233 | splitting the collected output at "\n" gives back exactly the lines read |
| `Process.CollectBlankIff` | src/main/java/base/EmulatorManager.java:283-284 | collected output trims to empty exactly when every line read was blank |
| `Process.ExitCodeIgnored` | src/main/java/base/EmulatorManagerOld.java:186-197 | two runs that differ only in exit code give the same result |
| `Platform.GetEnv` | src/main/java/base/EmulatorManager.java:50-52 | `System.getenv` is `null` exactly for a variable that is not set |
| `EmulatorManager.ResolveSdkPath` | src/main/java/base/EmulatorManager.java:50-63 | `ANDROID_SDK_ROOT` if non-empty, else `ANDROID_HOME` if non-empty, else `user.home` + partial path |
| `EmulatorManager.EmptySdkRootCountsAsUnset` | src/main/java/base/EmulatorManager.java:51 | an empty `ANDROID_SDK_ROOT` resolves exactly as a missing one |
| `EmulatorManager.NewManager` | src/main/java/base/EmulatorManager.java:42-67 | the manager is for Windows exactly when lower-cased `os.name` contains "win"; the SDK root follows the precedence |
| `EmulatorManager.WindowsDetectionIgnoresCase` | src/main/java/base/EmulatorManager.java:46-47 | OS detection does not depend on the letter case of `os.name` |
| `EmulatorManager.EmulatorExecutable` | src/main/java/base/EmulatorManager.java:294-301 | the binary path extends `<sdk><sep>emulator<sep>emulator`, by ".exe" exactly on Windows |
| `EmulatorManager.LaunchArgv` | src/main/java/base/EmulatorManager.java:123-133 | the five fixed elements, then "-no-window" exactly when quiet boot is asked for off Windows |
| `EmulatorManager.CheckCommandAvailability` | src/main/java/base/EmulatorManager.java:266-289 | `true` means unavailable: an absolute path is available exactly when it exists and is executable, with no command run; otherwise the single `which`/`where` run decides, blank output or an `IOException` meaning unavailable and an interrupt escaping |
| `EmulatorManager.MissReportedAsTextCountsAsAvailable` | src/main/java/base/EmulatorManager.java:283-284 | a search utility that reports a miss as text with a non-zero exit code makes the command count as available |
| `EmulatorManager.VerifyAvdList` | src/main/java/base/EmulatorManager.java:73-88 | "-list-avds" runs exactly when the binary is available, right after the availability check; otherwise nothing runs beyond the check; I/O errors are dropped, so the only failure is the interrupt, reported as "Command execution interrupted" |
| `EmulatorManager.EnsureEmulatorPermissions` | src/main/java/base/EmulatorManager.java:94-109 | no command on Windows, exactly one `chmod +x <binary>` elsewhere; I/O errors are dropped, so the only failure is the interrupt, reported as "Command execution interrupted" |
| `EmulatorManager.StopEmulator` | src/main/java/base/EmulatorManager.java:195-208 | the PATH search for adb comes first; when adb is found the commands are exactly the search and `adb emu kill`, otherwise the search alone; any failure is the interrupt, reported as "Command execution interrupted" |
| `EmulatorManager.Clock` | src/main/java/base/EmulatorManager.java:164-165 | every loop iteration advances the clock by at least the 5 s pause |
| `EmulatorManager.Classify` | src/main/java/base/EmulatorManager.java:165-174 | an iteration reads "booted" exactly when its probe's trimmed output is "1", "not ready" exactly when the probe ran and read anything else, "probe failed" exactly on an `IOException` and "probe interrupted" exactly on an interrupted wait |
| `EmulatorManager.BootPoll` | src/main/java/base/EmulatorManager.java:158-189 | reference definition of the boot loop: the probes issued and how the wait ended |
| `EmulatorManager.BootPollStep` | src/main/java/base/EmulatorManager.java:164-174 | one iteration before the deadline, by how it ends |
| `EmulatorManager.ProbeCountBound` | src/main/java/base/EmulatorManager.java:160-165 | if every probe's iteration started before the deadline, there are at most ceil(bootTimeout / 5) probes |
| `EmulatorManager.BootPollStartsBeforeDeadline` | src/main/java/base/EmulatorManager.java:164 | no probe belongs to an iteration that started at or after the deadline |
| `EmulatorManager.BootPollBootsOnFirstReady` | src/main/java/base/EmulatorManager.java:172-174 | a boot is reported right after the first probe that read "1", and every earlier probe read "not ready" |
| `EmulatorManager.BootPollTimesOutAtDeadline` | src/main/java/base/EmulatorManager.java:176-180 | a timeout is reported only once the clock reached the deadline, after probes that all read "not ready" |
| `EmulatorManager.NeverReadyTimesOut` | src/main/java/base/EmulatorManager.java:164 | the bounded loop times out when every probe reads "not ready" |
| `EmulatorManager.BootPollOutcome` | src/main/java/base/EmulatorManager.java:158-189 | all the boot-wait guarantees together: probe bound, deadline, first-ready and timeout conditions |
| `EmulatorManager.WaitForEmulatorToBoot` | src/main/java/base/EmulatorManager.java:158-189 | the loop ends as the reference does, with at most ceil(bootTimeout / 5) probes all started before the deadline; `Booted` follows the first "1", and `TimedOut` (not an error) only comes at the deadline |
| `EmulatorManager.ProbeCalls` | src/main/java/base/EmulatorManager.java:168-171 | each probe is `adb shell getprop sys.boot_completed` with a 10 s timeout |
| `EmulatorManager.StartEmulator` | src/main/java/base/EmulatorManager.java:117-151 | an unavailable binary or a failed check ends the call before anything is spawned, with the check's own error; otherwise one detached launch. A spawn `IOException` is fatal and nothing more runs. After a successful spawn the calls are the launch followed by exactly the boot wait's probes, and the result is the boot wait's: `Booted`, or `TimedOut` returned normally, not as an error, or the wait's failure message |
| `EmulatorManagerOld.NewManager` | src/main/java/base/EmulatorManagerOld.java:27-39 | the SDK root is `user.home` followed by the partial path |
| `EmulatorManagerOld.EnvironmentIgnored` | src/main/java/base/EmulatorManagerOld.java:37-38 | no environment variable or OS name influences the manager |
| `EmulatorManagerOld.EmulatorPath` | src/main/java/base/EmulatorManagerOld.java:82 | the binary is `<sdk>/emulator/emulator` on every OS |
| `EmulatorManagerOld.LaunchArgv` | src/main/java/base/EmulatorManagerOld.java:87-97 | the five fixed elements, then "-no-window" exactly when quiet boot is asked for, whatever the OS |
| `EmulatorManagerOld.RunDroppingIoErrors` | src/main/java/base/EmulatorManagerOld.java:169-198 | one command waited for with no timeout; only an interrupt escapes |
| `EmulatorManagerOld.VerifyAvdList` | src/main/java/base/EmulatorManagerOld.java:48-58 | always runs "-list-avds", without checking availability; any failure is the interrupt, reported as "Command execution interrupted" |
| `EmulatorManagerOld.EnsureEmulatorPermissions` | src/main/java/base/EmulatorManagerOld.java:64-75 | always runs `chmod +x`, on every OS; any failure is the interrupt, reported as "Command execution interrupted" |
| `EmulatorManagerOld.StopEmulator` | src/main/java/base/EmulatorManagerOld.java:156-164 | issues exactly `adb emu kill` and swallows its `IOException`; any failure is the interrupt, reported as "Command execution interrupted" |
| `EmulatorManagerOld.FailureMessage` | src/main/java/base/EmulatorManagerOld.java:137-144 | an interrupted pause has this class's own message; probe failures keep the shared ones |
| `EmulatorManagerOld.BootPoll` | src/main/java/base/EmulatorManagerOld.java:122-145 | the deadline-free loop followed for a number of iterations: over, or still polling |
| `EmulatorManagerOld.PendingIffNeverReady` | src/main/java/base/EmulatorManagerOld.java:126-135 | the loop is still running after n iterations exactly when all n probes read "not ready" |
| `EmulatorManagerOld.FinishedFacts` | src/main/java/base/EmulatorManagerOld.java:126-135 | the loop never reports a timeout, and a boot follows the first "1" |
| `EmulatorManagerOld.FinishedIsStable` | src/main/java/base/EmulatorManagerOld.java:127 | watching longer does not change a wait that is over |
| `EmulatorManagerOld.AgreesWithBoundedLoop` | src/main/java/base/EmulatorManagerOld.java:126-135 | while every iteration starts before the deadline, the old and the new loop issue the same probes and end the same way |
| `EmulatorManagerOld.NeverReadyHangsOnlyWithoutDeadline` | src/main/java/base/EmulatorManagerOld.java:127 | when no probe ever reads "1", the old loop never ends while the new one times out |
| `EmulatorManagerOld.ProbeCalls` | src/main/java/base/EmulatorManagerOld.java:131 | each probe waits for adb with no timeout |
| `EmulatorManagerOld.StartEmulator` | src/main/java/base/EmulatorManagerOld.java:81-117 | the launch is spawned first, with no availability check, then the probes; a spawn `IOException` becomes "Error starting the emulator"; success only after a "1"; a failed wait ends with the message `FailureMessage` gives for that failure |
| `EmulatorManagerOld.SameCommandsOffWindows` | src/main/java/base/EmulatorManagerOld.java:49-97 | off Windows, with no SDK variables, both managers build the same binary path and the same list, chmod and launch commands |
| `EmulatorManagerOld.QuietBootDiffersOnWindows` | src/main/java/base/EmulatorManagerOld.java:95-97 | on Windows a quiet boot adds "-no-window" only in the old manager |
| `EmulatorSetupTest.SdkPath` | src/main/java/base/EmulatorSetupTest.java:14-19 | the SDK root is always `user.home` + "/Library/Android/sdk" |
| `EmulatorSetupTest.EmulatorPath` | src/main/java/base/EmulatorSetupTest.java:37 | the binary is under `user.home` at "/Library/Android/sdk/emulator/emulator" |
| `EmulatorSetupTest.ListArgv` | src/main/java/base/EmulatorSetupTest.java:37-38 | exactly the binary and "-list-avds" |
| `EmulatorSetupTest.ChmodArgv` | src/main/java/base/EmulatorSetupTest.java:45-46 | exactly "chmod", "+x" and the binary |
| `EmulatorSetupTest.LaunchArgv` | src/main/java/base/EmulatorSetupTest.java:53-56 | exactly the five fixed elements, with no headless flag |
| `EmulatorSetupTest.Execute` | src/main/java/base/EmulatorSetupTest.java:21-34 | output on completion, whatever the exit code; every exception escapes, an `InterruptedException` exactly when the wait is interrupted |
| `EmulatorSetupTest.OutputRoundTrip` | src/main/java/base/EmulatorSetupTest.java:29-31 | the output is each line followed by "\n", so splitting it gives back the lines |
| `EmulatorSetupTest.SameOutputAsManagers` | src/main/java/base/EmulatorSetupTest.java:21-34 | the sketch collects the same output as the managers |
| `EmulatorSetupTest.VerifyAvdList` | src/main/java/base/EmulatorSetupTest.java:36-42 | runs the list command and fails exactly when it does not complete: with `IOException` exactly on an I/O error, with `InterruptedException` exactly on an interrupted wait; on success the result is the command's collected output |
| `EmulatorSetupTest.EnsureEmulatorPermissions` | src/main/java/base/EmulatorSetupTest.java:44-50 | runs the chmod command and fails exactly when it does not complete: with `IOException` exactly on an I/O error, with `InterruptedException` exactly on an interrupted wait; on success the result is the command's collected output |
| `EmulatorSetupTest.TestEmulatorLaunch` | src/main/java/base/EmulatorSetupTest.java:52-60 | the launch is run synchronously, with no timeout, as a waited-for command; it fails with `IOException` exactly on an I/O error and with `InterruptedException` exactly on an interrupted wait, and on success yields the collected output |
| `EmulatorSetupTest.SameCommandsAsOldManager` | src/main/java/base/EmulatorSetupTest.java:37-56 | the old manager with the same partial path builds the same three commands, quiet boot off |
| `JavaValues.ToString` | src/main/java/utils/CapabilitiesLoader.java:65 | `String.valueOf`: a string is itself, an integer its decimal text, a boolean "true"/"false", null "null"; empty list and map are "[]" and "{}" |
| `JavaValues.ListToStringCons` | src/main/java/utils/CapabilitiesLoader.java:65 | a list renders as "[", its elements' texts separated by ", ", and "]" |
| `JavaValues.MapToStringCons` | src/main/java/utils/CapabilitiesLoader.java:65 | a map renders as "{", its entries as "key=value" separated by ", ", and "}" |
| `JavaValues.IntToStringParses` | src/test/java/tests/LoginTest.java:124 | an `int` value's `toString` parses back to it |
| `CapabilitiesLoader.BaseName` | src/main/java/utils/CapabilitiesLoader.java:18-19 | "config/capabilities/" followed by the lower-cased platform, "-" and the lower-cased environment |
| `CapabilitiesLoader.CandidatePath` | src/main/java/utils/CapabilitiesLoader.java:18-19 | each candidate is the base name followed by its extension, ".json" or ".yaml" |
| `CapabilitiesLoader.CandidatesDiffer` | src/main/java/utils/CapabilitiesLoader.java:18-19 | the two candidates are different resources |
| `CapabilitiesLoader.LoadFromJson` | src/main/java/utils/CapabilitiesLoader.java:40-48 | exactly the document's top-level keys, each with its value unchanged |
| `CapabilitiesLoader.Coerce` | src/main/java/utils/CapabilitiesLoader.java:65 | a `String` is kept, any other value becomes its `toString` (a boolean "true"/"false", an integer its decimal text), and `null` has no value |
| `CapabilitiesLoader.LoadFromYaml` | src/main/java/utils/CapabilitiesLoader.java:50-71 | exactly the document's keys with coerced values; any failure, a `null` value included, is one error naming the path |
| `CapabilitiesLoader.YamlValuesAreStrings` | src/main/java/utils/CapabilitiesLoader.java:64-66 | every YAML capability is a string; strings are unchanged, and every other value becomes its `toString`: numbers their decimal text, booleans "true"/"false" |
| `CapabilitiesLoader.YamlCoercionIdempotent` | src/main/java/utils/CapabilitiesLoader.java:64-66 | loading the YAML result again changes nothing |
| `CapabilitiesLoader.LoadersAgreeOnStrings` | src/main/java/utils/CapabilitiesLoader.java:40-66 | on a document of strings the JSON and YAML loaders give the same capabilities |
| `CapabilitiesLoader.LoadCapabilities` | src/main/java/utils/CapabilitiesLoader.java:17-38 | JSON if present; else YAML if present; else "not found" exactly when neither is present |
| `CapabilitiesLoader.JsonShadowsYaml` | src/main/java/utils/CapabilitiesLoader.java:24-26 | with the JSON candidate present, the YAML file cannot influence the result |
| `CapabilitiesLoader.NotFoundMessageNamesBoth` | src/main/java/utils/CapabilitiesLoader.java:33 | the "not found" message names the platform and the environment |
| `CapabilitiesLoader.YamlFailureNamesPath` | src/main/java/utils/CapabilitiesLoader.java:68 | the YAML failure message names the YAML path |
| `CapabilitiesLoader.LookupIgnoresCase` | src/main/java/utils/CapabilitiesLoader.java:18-19 | once a candidate is found, lower-cased names load the same capabilities |
| `AppiumServerManager.NewServerManager` | src/main/java/base/AppiumServerManager.java:15-23 | the constructor builds a service for 127.0.0.1, port 4723, session override, log level "info", and does not start it |
| `AppiumServerManager.StartServer` | src/main/java/base/AppiumServerManager.java:28-35 | starts a stopped service, keeping its configuration; leaves a running one alone (no restart); a missing service faults |
| `AppiumServerManager.StartService` | src/main/java/base/AppiumServerManager.java:40-50 | builds the default service only when there is none and starts the service only when it is not running; for a present service the only event is the start, exactly when it was not running; it runs afterwards |
| `AppiumServerManager.StopServer` | src/main/java/base/AppiumServerManager.java:56-63 | stops exactly a present running service; otherwise nothing changes |
| `AppiumServerManager.GetServerUrl` | src/main/java/base/AppiumServerManager.java:68-73 | the URL exactly while the service runs, `null` otherwise |
| `AppiumServerManager.StartStopIdempotent` | src/main/java/base/AppiumServerManager.java:28-63 | a second start or a second stop does nothing |
| `AppiumServerManager.UrlFollowsLifecycle` | src/main/java/base/AppiumServerManager.java:28-73 | a URL exists right after a start and never right after a stop |
| `AppiumServerManager.CallsKeepService` | src/main/java/base/AppiumServerManager.java:28-63 | no sequence of calls removes a service or changes its configuration |
| `AppiumServerManager.ConstructedManagerKeepsItsConfig` | src/main/java/base/AppiumServerManager.java:15-63 | after any calls on a constructed manager, nothing has faulted and the service still has the constructor's configuration |
| `JsonAttributeValueExtractor.AsText` | src/main/java/utils/JsonAttributeValueExtractor.java:65 | `asText`: a text node's text, an integer's decimal text, "true"/"false" for booleans, "null" for JSON null, "" for containers |
| `JsonAttributeValueExtractor.Leaves` | src/main/java/utils/JsonAttributeValueExtractor.java:63-67 | only scalar nodes are leaves |
| `JsonAttributeValueExtractor.FlattenRendersLeaves` | src/main/java/utils/JsonAttributeValueExtractor.java:46-68 | `printAttributes` emits exactly one pair per leaf, in document order, keyed by the leaf's path: a field is "name" at the top and "parent.name" below, an element is "parent[i]" |
| `JsonAttributeValueExtractor.FlattenFieldsRendersLeaves` | src/main/java/utils/JsonAttributeValueExtractor.java:47-54 | the fields of an object, in order, each under its field key |
| `JsonAttributeValueExtractor.FlattenItemsRendersLeaves` | src/main/java/utils/JsonAttributeValueExtractor.java:55-62 | the elements of an array, indexed from 0 in order |
| `JsonAttributeValueExtractor.PathKeyExtends` | src/main/java/utils/JsonAttributeValueExtractor.java:52-59 | below a non-empty key every deeper key extends it |
| `JsonAttributeValueExtractor.FlattenKeysExtendParent` | src/main/java/utils/JsonAttributeValueExtractor.java:46-68 | every key emitted under a non-empty parent key starts with it, and the i-th value is the text of the i-th scalar leaf |
| `JsonAttributeValueExtractor.EmptyContainersEmitNothing` | src/main/java/utils/JsonAttributeValueExtractor.java:46-68 | a tree emits no pair exactly when it is built from objects and arrays alone, at any depth |
| `JsonAttributeValueExtractor.NoLeavesIffContainersOnly` | src/main/java/utils/JsonAttributeValueExtractor.java:47-62 | a tree has no scalar leaf exactly when it is built from objects and arrays alone |
| `JsonAttributeValueExtractor.TopLevelKeys` | src/main/java/utils/JsonAttributeValueExtractor.java:52-59 | a top-level field key is the bare name, while a top-level element key is "[0]" |
| `JsonAttributeValueExtractor.FirstIndex` | src/main/java/utils/JsonAttributeValueExtractor.java:109 | the position of the first field with a name |
| `JsonAttributeValueExtractor.Lookup` | src/main/java/utils/JsonAttributeValueExtractor.java:109 | `get(key)` is `null` exactly when no field has that name |
| `JsonAttributeValueExtractor.GetSafeValue` | src/main/java/utils/JsonAttributeValueExtractor.java:108-111 | the field's text when present (including "null" for JSON null), "N/A" when absent or when the node is not an object |
| `JsonAttributeValueExtractor.SafeValueAppearsInFlatten` | src/main/java/utils/JsonAttributeValueExtractor.java:108-111 | a top-level scalar field's safe value is the pair flattening emits for it |
| `JsonAttributeValueExtractor.FieldPairInFlatten` | src/main/java/utils/JsonAttributeValueExtractor.java:52-53 | each top-level scalar field yields its (name, text) pair |
| `JsonAttributeValueExtractor.ParsedSafeValueAppearsInFlatten` | src/main/java/utils/JsonAttributeValueExtractor.java:108-111 | in a parsed tree, where each field name occurs once per object, the safe read of a top-level scalar field is its text, and that pair is among the flattened pairs |
| `JsonAttributeValueExtractor.ValidateFile` | src/main/java/utils/JsonAttributeValueExtractor.java:76-83 | fails exactly when the file does not exist or is not readable, with a message containing the path |
| `JsonAttributeValueExtractor.ParseJsonFile` | src/main/java/utils/JsonAttributeValueExtractor.java:34-38 | parses only a validated file, and the file check's failure comes first; the result is a `ParsedTree`, a subset type whose values never hold two fields with one name in an object |
| `LoginTest.GetStringOrDefault` | src/test/java/tests/LoginTest.java:115-118 | the default exactly for `null`, else the value's `toString` (a string as it is) |
| `LoginTest.GetIntOrDefault` | src/test/java/tests/LoginTest.java:120-128 | the default for `null` or unparsable text, else the parsed `int` |
| `LoginTest.IntSettingRoundTrip` | src/test/java/tests/LoginTest.java:120-128 | an `int` stored as a number or as its text reads back as itself |
| `LoginTest.WideSettingFallsBack` | src/test/java/tests/LoginTest.java:124-126 | a number outside the `int` range gives the default |
| `LoginTest.IntSettingReadsStringSetting` | src/test/java/tests/LoginTest.java:115-128 | both helpers read the same text: a present setting's `int` is `parseInt` of the string the string helper returns, or the default when that does not parse |
| `LoginTest.StringSettingRoundTrip` | src/test/java/tests/LoginTest.java:115-118 | a stored string reads back as itself; an absent key or a `null` value gives the default |
| `LoginTest.ResolveEndpoint` | src/test/java/tests/LoginTest.java:25-48 | the configured values or their defaults; a set `APPIUM_HOST` always wins; a set `APPIUM_PORT` wins through `parseInt`, and malformed text is an error |
| `LoginTest.RemoteUrl` | src/test/java/tests/LoginTest.java:51 | "http://" + host + ":" followed by exactly the port's decimal digits |
| `LoginTest.DefaultEndpoint` | src/test/java/tests/LoginTest.java:26-27 | with nothing configured, the URL is "http://127.0.0.1:4723" |
| `LoginTest.DefaultPortSpelling` | src/test/java/tests/LoginTest.java:27 | the default port renders as "4723" |
| `LoginTest.EnvironmentOverridesConfig` | src/test/java/tests/LoginTest.java:41-48 | the environment replaces both values, even with an empty host |
| `LoginTest.UrlPortRoundTrip` | src/test/java/tests/LoginTest.java:51 | the text after "http://host:" parses back to the port |
| `RetryAnalyzer.NewRetryAnalyzer` | src/main/java/utils/RetryAnalyzer.java:8 | the counter starts at 0 |
| `RetryAnalyzer.Retry` | src/main/java/utils/RetryAnalyzer.java:12-19 | "retry" exactly while fewer than 3 retries were granted; the counter goes up by 1 exactly on "retry" and never past 3 |
| `RetryAnalyzer.CallsAnswer` | src/main/java/utils/RetryAnalyzer.java:12-19 | from any valid count, call i answers "retry" exactly while count + i < 3 |
| `RetryAnalyzer.FreshAnalyzerGrantsThree` | src/main/java/utils/RetryAnalyzer.java:8-19 | a fresh analyzer grants the first three retries, refuses all later ones, and ends at min(n, 3) |

## Left out

- Real processes, `Thread.sleep` and the wall clock are not modelled. Process replies and iteration timings are oracles, and an oracle reply describes a process that finished.
- No process timeout is claimed to bound anything:
  - `EmulatorManager.executeCommand` reads the output to its end before it waits with a timeout, so a process that never closes its output blocks the caller.
  - After `destroyForcibly` it calls `exitValue`, which can throw on a process that has not yet died.
  - The timeout is recorded in each `Run` command and has no other effect.
- EmulatorManager.Clock: the deadline is taken at the same instant as the first loop test. Any time between computing the deadline and the first test is not modelled. The model also takes `System.currentTimeMillis` to advance by at least the 5 s pause on every iteration. A wall clock that is set back while the loop runs can give more probes than ceil(bootTimeout / 5), and this is not modelled.
- EmulatorManagerOld.BootPoll: the loop without a deadline is observed for a given number of iterations. A run that never ends is one that stays `Pending` for every number.
- Platform.IsAbsolute: on Windows only drive-letter and UNC forms count as absolute. `File.separator` is taken to follow the same OS test as `isWindows`.
- JSON and YAML parsing (Jackson, RestAssured `JsonPath`) and class-path lookup are oracles. So is the failure of `File(URI)` for resources inside a jar, which the YAML error path covers. The unclosed `InputStream` is not modelled.
- JsonAttributeValueExtractor.ParsedTree: parsed trees are taken to hold each field name at most once per object, as a Jackson `ObjectNode` does. How Jackson handles a name repeated in the input text is not modelled: it keeps the last value, at the first position. The bare `JsonNode` datatype admits repeated names, and `Flatten` and `Lookup` are also defined on such trees.
- `DesiredCapabilities.setCapability` is modelled as a plain map update. Its special handling of some keys and of `null` values is library code outside this model.
- Floating-point values in JSON/YAML documents and their `toString` are not modelled.
- The Appium library is left out:
  - Starting a service always succeeds.
  - The URL format of `getUrl` and the configuration of `buildDefaultService` are parameters.
  - The printed messages are not modelled.
- `LoginTest.setUp` as a whole is left out. Its static configuration is never assigned, and it opens a driver session. Only the helpers, the defaults, the overrides and the URL format are modelled. The helpers take a present section: a `null` section would throw inside them.
- `LoginTest` tests `readDataFromJsonConfig`, `exampleTest` and `tearDown` are left out: they use driver sessions and files.
- `JsonAttributeValueExtractor.getResourceFilePath` and every `main` method are left out, since they are class-path lookup and example entry points. Logging is left out everywhere.
- Lower-casing handles ASCII letters only, with no locale rules. `Integer.parseInt` and `%d` use ASCII digits only.
- Text.TrimLeft: `trim` is stated by lemmas (`TrimIsSlice`, `TrimEmptyIff`) rather than on the trimming functions themselves.
