/**
 * `EmulatorManager`: resolves the Android SDK location, builds the emulator and adb command lines,
 * checks that a command is available before using it, launches the emulator detached and polls
 * `sys.boot_completed` until it reads "1" or a deadline passes.
 *
 * The availability check answers the question "is this command UNavailable?": `true` blocks the action.
 */
module EmulatorManager {
  import opened Results
  import opened Text
  import opened Process
  import opened Platform

  const SdkRootVariable: string := "ANDROID_SDK_ROOT"
  const AndroidHomeVariable: string := "ANDROID_HOME"

  /** Boot timeout used by the example entry point, in seconds. */
  const DefaultBootTimeout: int := 180
  /** Pause before every boot probe, in milliseconds. */
  const PollIntervalMillis: nat := 5000

  const ListTimeout: int := 30
  const ChmodTimeout: int := 10
  const ProbeTimeout: int := 10
  const KillTimeout: int := 15
  const SearchTimeout: int := 5

  const ProbeArgv: seq<string> := ["adb", "shell", "getprop", "sys.boot_completed"]
  const KillArgv: seq<string> := ["adb", "emu", "kill"]

  const BootInterruptedMessage: string := "Interrupted while waiting for emulator to boot"
  const BootCheckFailedMessage: string := "Error during emulator boot check"
  const LaunchFailedMessage: string := "Error starting the emulator"

  function NotFoundMessage(path: string): string {
    "Emulator not found or not on PATH: " + path
  }

  // ---------------------------------------------------------------------------------------------
  // Construction: SDK root and operating system
  // ---------------------------------------------------------------------------------------------

  /** A variable counts as set only when it is present and non-empty. */
  predicate IsSet(env: map<string, string>, name: string) {
    name in env && env[name] != ""
  }

  /**
   * The SDK root: `ANDROID_SDK_ROOT` if set, else `ANDROID_HOME` if set, else `user.home` followed
   * by the caller's partial path. An empty variable is treated like a missing one.
   */
  function ResolveSdkPath(env: map<string, string>, userHome: string, partialSdkPath: string): (path: string)
    ensures IsSet(env, SdkRootVariable) ==> path == env[SdkRootVariable]
    ensures !IsSet(env, SdkRootVariable) && IsSet(env, AndroidHomeVariable) ==> path == env[AndroidHomeVariable]
    ensures !IsSet(env, SdkRootVariable) && !IsSet(env, AndroidHomeVariable) ==> path == userHome + partialSdkPath
  {
    var first := GetEnv(env, SdkRootVariable);
    var sdkEnv := if first.None? || first.value == "" then GetEnv(env, AndroidHomeVariable) else first;
    if sdkEnv.Some? && sdkEnv.value != "" then sdkEnv.value else userHome + partialSdkPath
  }

  /** An empty `ANDROID_SDK_ROOT` resolves exactly as if the variable were missing. */
  lemma EmptySdkRootCountsAsUnset(env: map<string, string>, userHome: string, partialSdkPath: string)
    ensures ResolveSdkPath(env[SdkRootVariable := ""], userHome, partialSdkPath)
         == ResolveSdkPath(env - {SdkRootVariable}, userHome, partialSdkPath)
  {
    assert IsSet(env[SdkRootVariable := ""], AndroidHomeVariable) <==> IsSet(env - {SdkRootVariable}, AndroidHomeVariable);
  }

  /** `os.name` lower-cased contains "win". */
  predicate IsWindowsName(osName: string) {
    Contains(Lower(osName), "win")
  }

  datatype Manager = Manager(avdName: string, sdkPath: string, isWindows: bool)

  /** The constructor: fixes the AVD name, the OS family and the SDK root once. */
  function NewManager(host: Host, avdName: string, partialSdkPath: string): (m: Manager)
    ensures m.avdName == avdName
    ensures m.isWindows <==> Contains(Lower(host.osName), "win")
    ensures m.sdkPath == ResolveSdkPath(host.env, host.userHome, partialSdkPath)
  {
    Manager(avdName, ResolveSdkPath(host.env, host.userHome, partialSdkPath), IsWindowsName(host.osName))
  }

  /** The OS test ignores letter case. */
  lemma WindowsDetectionIgnoresCase(osName: string)
    ensures IsWindowsName(osName) <==> IsWindowsName(Lower(osName))
  {
    LowerIdempotent(osName);
  }

  // ---------------------------------------------------------------------------------------------
  // Command lines
  // ---------------------------------------------------------------------------------------------

  /** `<sdk><sep>emulator<sep>emulator`, before any platform suffix. */
  function EmulatorBase(m: Manager): string {
    m.sdkPath + Separator(m.isWindows) + "emulator" + Separator(m.isWindows) + "emulator"
  }

  /** The emulator binary: the base path, with ".exe" appended exactly on Windows. */
  function EmulatorExecutable(m: Manager): (path: string)
    ensures IsPrefix(EmulatorBase(m), path)
    ensures |path| == |EmulatorBase(m)| + (if m.isWindows then 4 else 0)
    ensures m.isWindows ==> path[|EmulatorBase(m)|..] == ".exe"
  {
    if m.isWindows then EmulatorBase(m) + ".exe" else EmulatorBase(m)
  }

  /**
   * The launch command: binary, "-avd", the AVD name, "-no-snapshot-load", "-no-boot-anim", and a
   * sixth element "-no-window" exactly when a quiet boot is asked for off Windows.
   */
  function LaunchArgv(m: Manager, quietBoot: bool): (argv: seq<string>)
    ensures |argv| == 5 || |argv| == 6
    ensures argv[..5] == [EmulatorExecutable(m), "-avd", m.avdName, "-no-snapshot-load", "-no-boot-anim"]
    ensures |argv| == 6 <==> quietBoot && !m.isWindows
    ensures |argv| == 6 ==> argv[5] == "-no-window"
  {
    var base := [EmulatorExecutable(m), "-avd", m.avdName, "-no-snapshot-load", "-no-boot-anim"];
    if quietBoot && !m.isWindows then base + ["-no-window"] else base
  }

  function ListArgv(m: Manager): seq<string> {
    [EmulatorExecutable(m), "-list-avds"]
  }

  function ChmodArgv(m: Manager): seq<string> {
    ["chmod", "+x", EmulatorExecutable(m)]
  }

  /** The PATH search: `where` on Windows, `which` elsewhere. */
  function SearchArgv(windows: bool, cmd: string): seq<string> {
    [if windows then "where" else "which", cmd]
  }

  // ---------------------------------------------------------------------------------------------
  // Availability check (true means UNavailable)
  // ---------------------------------------------------------------------------------------------

  /** The search utility printed at least one non-blank line. */
  predicate SearchFoundSomething(reply: ProcessReply) {
    reply.Exited? && exists i :: 0 <= i < |reply.lines| && !AllSpace(reply.lines[i])
  }

  /**
   * `checkCommandAvailability(cmd)`: `Ok(true)` when the command must be treated as unavailable.
   * An absolute path is judged by the file system alone; anything else by the PATH search, whose
   * `IOException` also means unavailable, while an interrupt escapes as a runtime exception.
   */
  function CheckCommandAvailability(windows: bool, fs: FileSystem, exec: seq<string> -> ProcessReply, cmd: string)
    : (r: Trace<bool>)
    ensures IsAbsolute(cmd, windows) ==> r.calls == []
    ensures IsAbsolute(cmd, windows) ==> (r.outcome == Ok(false) <==> cmd in fs.existing && cmd in fs.executable)
    ensures IsAbsolute(cmd, windows) ==> r.outcome.Ok?
    ensures !IsAbsolute(cmd, windows) ==> r.calls == [Run(SearchArgv(windows, cmd), Some(SearchTimeout))]
    ensures !IsAbsolute(cmd, windows) ==> (r.outcome == Ok(false) <==> SearchFoundSomething(exec(SearchArgv(windows, cmd))))
    ensures !IsAbsolute(cmd, windows) ==> (r.outcome.Err? <==> exec(SearchArgv(windows, cmd)).WaitInterrupted?)
    ensures r.outcome.Err? ==> r.outcome.error == CommandInterruptedMessage
  {
    if IsAbsolute(cmd, windows) then
      Trace([], Ok(!(cmd in fs.existing && cmd in fs.executable)))
    else
      var argv := SearchArgv(windows, cmd);
      var calls := [Run(argv, Some(SearchTimeout))];
      match ExecuteCommand(exec(argv))
      case Output(text) =>
        CollectBlankIff(exec(argv).lines);
        Trace(calls, Ok(Trim(text) == ""))
      case IoFailure => Trace(calls, Ok(true))
      case Interrupted => Trace(calls, Err(CommandInterruptedMessage))
  }

  /**
   * The verdict reads the merged stdout/stderr only: a search utility that reports a miss as text
   * (and a non-zero exit code) makes the command count as available.
   */
  lemma MissReportedAsTextCountsAsAvailable(cmd: string, exec: seq<string> -> ProcessReply, fs: FileSystem)
    requires !IsAbsolute(cmd, false)
    requires exec(SearchArgv(false, cmd)) == Exited(["which: no " + cmd + " in PATH"], 1)
    ensures CheckCommandAvailability(false, fs, exec, cmd).outcome == Ok(false)
  {
    var line := "which: no " + cmd + " in PATH";
    assert !IsSpace(line[0]);
    assert !AllSpace(exec(SearchArgv(false, cmd)).lines[0]);
  }

  // ---------------------------------------------------------------------------------------------
  // Listing, permissions, stopping
  // ---------------------------------------------------------------------------------------------

  /** `verifyAvdList`: runs "-list-avds" only when the binary is available; I/O errors are logged and dropped. */
  function VerifyAvdList(m: Manager, fs: FileSystem, exec: seq<string> -> ProcessReply): (r: Trace<()>)
    ensures var check := CheckCommandAvailability(m.isWindows, fs, exec, EmulatorExecutable(m));
      && check.calls <= r.calls
      && (Run(ListArgv(m), Some(ListTimeout)) in r.calls <==> check.outcome == Ok(false))
      && (check.outcome == Ok(false) ==> r.calls == check.calls + [Run(ListArgv(m), Some(ListTimeout))])
      && (check.outcome != Ok(false) ==> r.calls == check.calls)
      && (r.outcome.Err? <==> check.outcome.Err? || (check.outcome == Ok(false) && exec(ListArgv(m)).WaitInterrupted?))
    ensures r.outcome.Err? ==> r.outcome.error == CommandInterruptedMessage
  {
    var path := EmulatorExecutable(m);
    var check := CheckCommandAvailability(m.isWindows, fs, exec, path);
    match check.outcome
    case Err(e) => Trace(check.calls, Err(e))
    case Ok(unavailable) =>
      if unavailable then
        assert Run(ListArgv(m), Some(ListTimeout)) !in check.calls;
        Trace(check.calls, Ok(()))
      else
        var calls := check.calls + [Run(ListArgv(m), Some(ListTimeout))];
        assert calls[..|check.calls|] == check.calls;
        if ExecuteCommand(exec(ListArgv(m))).Interrupted? then Trace(calls, Err(CommandInterruptedMessage))
        else Trace(calls, Ok(()))
  }

  /** `ensureEmulatorPermissions`: nothing on Windows, otherwise one `chmod +x`; I/O errors are dropped. */
  function EnsureEmulatorPermissions(m: Manager, exec: seq<string> -> ProcessReply): (r: Trace<()>)
    ensures m.isWindows ==> r == Trace([], Ok(()))
    ensures !m.isWindows ==> r.calls == [Run(["chmod", "+x", EmulatorExecutable(m)], Some(ChmodTimeout))]
    ensures r.outcome.Err? <==> !m.isWindows && exec(ChmodArgv(m)).WaitInterrupted?
    ensures r.outcome.Err? ==> r.outcome.error == CommandInterruptedMessage
  {
    if m.isWindows then Trace([], Ok(()))
    else
      var calls := [Run(ChmodArgv(m), Some(ChmodTimeout))];
      if ExecuteCommand(exec(ChmodArgv(m))).Interrupted? then Trace(calls, Err(CommandInterruptedMessage))
      else Trace(calls, Ok(()))
  }

  /** `stopEmulator`: asks for adb on the PATH, and sends `adb emu kill` only if it was found. */
  function StopEmulator(m: Manager, fs: FileSystem, exec: seq<string> -> ProcessReply): (r: Trace<()>)
    ensures |r.calls| >= 1 && r.calls[0] == Run(SearchArgv(m.isWindows, "adb"), Some(SearchTimeout))
    ensures Run(KillArgv, Some(KillTimeout)) in r.calls <==> SearchFoundSomething(exec(SearchArgv(m.isWindows, "adb")))
    ensures !SearchFoundSomething(exec(SearchArgv(m.isWindows, "adb"))) ==> |r.calls| == 1
    ensures SearchFoundSomething(exec(SearchArgv(m.isWindows, "adb"))) ==>
      r.calls == [Run(SearchArgv(m.isWindows, "adb"), Some(SearchTimeout)), Run(KillArgv, Some(KillTimeout))]
    ensures r.outcome.Err? <==>
      exec(SearchArgv(m.isWindows, "adb")).WaitInterrupted?
      || (SearchFoundSomething(exec(SearchArgv(m.isWindows, "adb"))) && exec(KillArgv).WaitInterrupted?)
    ensures r.outcome.Err? ==> r.outcome.error == CommandInterruptedMessage
  {
    var check := CheckCommandAvailability(m.isWindows, fs, exec, "adb");
    match check.outcome
    case Err(e) => Trace(check.calls, Err(e))
    case Ok(unavailable) =>
      if unavailable then Trace(check.calls, Ok(()))
      else
        var calls := check.calls + [Run(KillArgv, Some(KillTimeout))];
        if ExecuteCommand(exec(KillArgv)).Interrupted? then Trace(calls, Err(CommandInterruptedMessage))
        else Trace(calls, Ok(()))
  }

  // ---------------------------------------------------------------------------------------------
  // Boot polling
  // ---------------------------------------------------------------------------------------------

  /**
   * What happens in the k-th iteration of the boot loop: how many milliseconds it takes beyond the
   * 5 s pause (the probe itself, scheduling), whether the pause is interrupted, and the probe's reply.
   */
  datatype Poll = Poll(lag: nat, sleepInterrupted: bool, reply: ProcessReply)

  datatype BootStatus = Booted | TimedOut

  /** The runtime exceptions that end the boot wait. */
  datatype BootFailure = SleepWasInterrupted | ProbeIoFailure | ProbeWaitInterrupted {
    function Message(): string {
      match this
      case SleepWasInterrupted => BootInterruptedMessage
      case ProbeIoFailure => BootCheckFailedMessage
      case ProbeWaitInterrupted => CommandInterruptedMessage
    }
  }

  /** The clock reading at the k-th loop test: `start`, advanced by each earlier iteration's pause and lag. */
  function Clock(start: int, polls: nat -> Poll, k: nat): (t: int)
    ensures t >= start + 5000 * k
    decreases k
  {
    if k == 0 then start else Clock(start, polls, k - 1) + PollIntervalMillis + polls(k - 1).lag
  }

  function Deadline(start: int, bootTimeout: int): int {
    start + bootTimeout * 1000
  }

  /** The most probes a boot timeout admits: ceil(bootTimeout / 5), and none for a non-positive timeout. */
  function MaxProbes(bootTimeout: int): nat {
    if bootTimeout <= 0 then 0 else (bootTimeout + 4) / 5
  }

  /** The probe's trimmed output is "1". */
  predicate Ready(p: Poll) {
    !p.sleepInterrupted && p.reply.Exited? && Trim(Collect(p.reply.lines)) == "1"
  }

  /** The probe ran and its trimmed output is something other than "1". */
  predicate NotReady(p: Poll) {
    !p.sleepInterrupted && p.reply.Exited? && Trim(Collect(p.reply.lines)) != "1"
  }

  /** How one iteration of the boot loop ends. */
  datatype Step = SleepInterrupted | ProbeFailed | ProbeInterrupted | Answered(ready: bool)

  function Classify(p: Poll): (s: Step)
    ensures s == Answered(true) <==> Ready(p)
    ensures s == Answered(false) <==> NotReady(p)
    ensures s == SleepInterrupted <==> p.sleepInterrupted
    ensures s == ProbeFailed <==> !p.sleepInterrupted && p.reply.IoError?
    ensures s == ProbeInterrupted <==> !p.sleepInterrupted && p.reply.WaitInterrupted?
  {
    if p.sleepInterrupted then SleepInterrupted
    else
      match ExecuteCommand(p.reply)
      case IoFailure => ProbeFailed
      case Interrupted => ProbeInterrupted
      case Output(text) => Answered(Trim(text) == "1")
  }

  /**
   * Reference definition of the boot loop from the k-th loop test on, with the clock at `now`:
   * the number of probes issued in total and how the wait ended.
   */
  function BootPoll(deadline: int, polls: nat -> Poll, k: nat, now: int): (r: (nat, Result<BootStatus, BootFailure>))
    ensures r.0 >= k
    decreases deadline - now
  {
    if now >= deadline then (k, Ok(TimedOut))
    else
      match Classify(polls(k))
      case SleepInterrupted => (k, Err(SleepWasInterrupted))
      case ProbeFailed => (k + 1, Err(ProbeIoFailure))
      case ProbeInterrupted => (k + 1, Err(ProbeWaitInterrupted))
      case Answered(ready) =>
        if ready then (k + 1, Ok(Booted))
        else BootPoll(deadline, polls, k + 1, now + PollIntervalMillis + polls(k).lag)
  }

  /** One iteration of the reference loop, by cases on how the iteration ends. */
  lemma BootPollStep(deadline: int, polls: nat -> Poll, k: nat, now: int)
    requires now < deadline
    ensures Classify(polls(k)) == SleepInterrupted ==> BootPoll(deadline, polls, k, now) == (k, Err(SleepWasInterrupted))
    ensures Classify(polls(k)) == ProbeFailed ==> BootPoll(deadline, polls, k, now) == (k + 1, Err(ProbeIoFailure))
    ensures Classify(polls(k)) == ProbeInterrupted ==> BootPoll(deadline, polls, k, now) == (k + 1, Err(ProbeWaitInterrupted))
    ensures Classify(polls(k)) == Answered(true) ==> BootPoll(deadline, polls, k, now) == (k + 1, Ok(Booted))
    ensures Classify(polls(k)) == Answered(false) ==>
      BootPoll(deadline, polls, k, now) == BootPoll(deadline, polls, k + 1, now + PollIntervalMillis + polls(k).lag)
  {
  }

  lemma ProbeCountBound(bootTimeout: int, probes: nat)
    requires probes > 0 ==> 5000 * (probes - 1) < bootTimeout * 1000
    ensures probes <= MaxProbes(bootTimeout)
  {
    if probes > 0 {
      assert 5 * (probes - 1) < bootTimeout;
      assert 5 * probes <= bootTimeout + 4;
    }
  }

  /** Every probe the reference loop issues belongs to an iteration that started before the deadline. */
  lemma {:induction false} BootPollStartsBeforeDeadline(deadline: int, start: int, polls: nat -> Poll, k: nat, now: int)
    requires now == Clock(start, polls, k)
    requires forall j :: 0 <= j < k ==> Clock(start, polls, j) < deadline
    ensures forall j :: 0 <= j < BootPoll(deadline, polls, k, now).0 ==> Clock(start, polls, j) < deadline
    decreases deadline - now
  {
    if now < deadline {
      BootPollStep(deadline, polls, k, now);
      if Classify(polls(k)) == Answered(false) {
        BootPollStartsBeforeDeadline(deadline, start, polls, k + 1, now + PollIntervalMillis + polls(k).lag);
      }
    }
  }

  /** The reference loop reports `Booted` right after the first probe that read "1". */
  lemma {:induction false} BootPollBootsOnFirstReady(deadline: int, polls: nat -> Poll, k: nat, now: int)
    requires forall j :: 0 <= j < k ==> NotReady(polls(j))
    ensures var (n, outcome) := BootPoll(deadline, polls, k, now);
      outcome == Ok(Booted) ==> n > 0 && Ready(polls(n - 1)) && forall j :: 0 <= j < n - 1 ==> NotReady(polls(j))
    decreases deadline - now
  {
    if now < deadline {
      BootPollStep(deadline, polls, k, now);
      if Classify(polls(k)) == Answered(false) {
        BootPollBootsOnFirstReady(deadline, polls, k + 1, now + PollIntervalMillis + polls(k).lag);
      }
    }
  }

  /** The reference loop reports `TimedOut` only at the deadline, after probes that all read "not ready". */
  lemma {:induction false} BootPollTimesOutAtDeadline(deadline: int, start: int, polls: nat -> Poll, k: nat, now: int)
    requires now == Clock(start, polls, k)
    requires forall j :: 0 <= j < k ==> NotReady(polls(j))
    ensures var (n, outcome) := BootPoll(deadline, polls, k, now);
      outcome == Ok(TimedOut) ==> Clock(start, polls, n) >= deadline && forall j :: 0 <= j < n ==> NotReady(polls(j))
    decreases deadline - now
  {
    if now < deadline {
      BootPollStep(deadline, polls, k, now);
      if Classify(polls(k)) == Answered(false) {
        BootPollTimesOutAtDeadline(deadline, start, polls, k + 1, now + PollIntervalMillis + polls(k).lag);
      }
    }
  }

  /** A device that never reports "1" makes the loop run into its deadline, not fail. */
  lemma {:induction false} NeverReadyTimesOut(deadline: int, polls: nat -> Poll, k: nat, now: int)
    requires forall j :: k <= j ==> NotReady(polls(j))
    ensures BootPoll(deadline, polls, k, now).1 == Ok(TimedOut)
    decreases deadline - now
  {
    if now < deadline {
      assert NotReady(polls(k));
      BootPollStep(deadline, polls, k, now);
      NeverReadyTimesOut(deadline, polls, k + 1, now + PollIntervalMillis + polls(k).lag);
    }
  }

  /** Everything the boot wait promises, stated of the reference loop started at `start`. */
  lemma BootPollOutcome(bootTimeout: int, start: int, polls: nat -> Poll)
    ensures var (n, outcome) := BootPoll(Deadline(start, bootTimeout), polls, 0, start);
      && (forall j :: 0 <= j < n ==> Clock(start, polls, j) < Deadline(start, bootTimeout))
      && n <= MaxProbes(bootTimeout)
      && (outcome == Ok(Booted) ==> n > 0 && Ready(polls(n - 1)) && forall j :: 0 <= j < n - 1 ==> NotReady(polls(j)))
      && (outcome == Ok(TimedOut) ==>
            Clock(start, polls, n) >= Deadline(start, bootTimeout) && forall j :: 0 <= j < n ==> NotReady(polls(j)))
  {
    var deadline := Deadline(start, bootTimeout);
    BootPollStartsBeforeDeadline(deadline, start, polls, 0, start);
    BootPollBootsOnFirstReady(deadline, polls, 0, start);
    BootPollTimesOutAtDeadline(deadline, start, polls, 0, start);
    var n := BootPoll(deadline, polls, 0, start).0;
    if n > 0 {
      assert Clock(start, polls, n - 1) < deadline;
    }
    ProbeCountBound(bootTimeout, n);
  }

  /**
   * `waitForEmulatorToBoot`: sleeps 5 s, probes `sys.boot_completed`, and repeats while not booted
   * and the clock is before `start + bootTimeout * 1000`. Running out of time is not an error; an
   * interrupted sleep, a probe `IOException` or an interrupted probe end the wait with a failure.
   */
  method WaitForEmulatorToBoot(bootTimeout: int, start: int, polls: nat -> Poll)
    returns (probes: nat, outcome: Result<BootStatus, BootFailure>)
    ensures (probes, outcome) == BootPoll(Deadline(start, bootTimeout), polls, 0, start)
    ensures forall j :: 0 <= j < probes ==> Clock(start, polls, j) < Deadline(start, bootTimeout)
    ensures probes <= MaxProbes(bootTimeout)
    ensures outcome == Ok(Booted) ==>
      probes > 0 && Ready(polls(probes - 1)) && forall j :: 0 <= j < probes - 1 ==> NotReady(polls(j))
    ensures outcome == Ok(TimedOut) ==>
      Clock(start, polls, probes) >= Deadline(start, bootTimeout) && forall j :: 0 <= j < probes ==> NotReady(polls(j))
  {
    var deadline := Deadline(start, bootTimeout);
    var now := start;
    var finished := false;
    probes, outcome := 0, Ok(TimedOut);
    while !finished && now < deadline
      invariant !finished ==> now == Clock(start, polls, probes) && outcome == Ok(TimedOut)
      invariant BootPoll(deadline, polls, 0, start)
             == if finished then (probes, outcome) else BootPoll(deadline, polls, probes, now)
      decreases deadline - now, if finished then 0 else 1
    {
      var p := polls(probes);
      BootPollStep(deadline, polls, probes, now);
      match Classify(p) {
        case SleepInterrupted =>
          finished, outcome := true, Err(SleepWasInterrupted);
        case ProbeFailed =>
          probes, finished, outcome := probes + 1, true, Err(ProbeIoFailure);
        case ProbeInterrupted =>
          probes, finished, outcome := probes + 1, true, Err(ProbeWaitInterrupted);
        case Answered(ready) =>
          probes := probes + 1;
          if ready {
            finished, outcome := true, Ok(Booted);
          } else {
            now := now + PollIntervalMillis + p.lag;
          }
      }
    }
    BootPollOutcome(bootTimeout, start, polls);
  }

  /** The probe command, once per probe issued. */
  function ProbeCalls(n: nat): (calls: seq<Call>)
    ensures |calls| == n
    ensures forall i :: 0 <= i < n ==> calls[i] == Run(ProbeArgv, Some(ProbeTimeout))
  {
    seq(n, _ => Run(ProbeArgv, Some(ProbeTimeout)))
  }

  /**
   * `startEmulator`: refuses before spawning anything when the binary is unavailable; otherwise
   * spawns the launch command detached and waits for boot. A spawn `IOException` is fatal; after
   * a successful spawn the method returns whatever the boot wait returns, so a boot that runs out
   * of time ends normally with `TimedOut`, and only a failure of the wait itself is an error.
   */
  method StartEmulator(m: Manager, quietBoot: bool, bootTimeout: int, fs: FileSystem,
                       exec: seq<string> -> ProcessReply, spawnFails: bool, start: int, polls: nat -> Poll)
    returns (r: Trace<BootStatus>)
    ensures var check := CheckCommandAvailability(m.isWindows, fs, exec, EmulatorExecutable(m));
      && check.calls <= r.calls
      && (check.outcome != Ok(false) ==> r.calls == check.calls && forall c :: c in r.calls ==> !c.Spawn?)
      && (check.outcome == Ok(true) ==> r.outcome == Err(NotFoundMessage(EmulatorExecutable(m))))
      && (check.outcome == Ok(false) ==>
            exists n :: 0 <= n <= MaxProbes(bootTimeout)
              && r.calls == check.calls + [Spawn(LaunchArgv(m, quietBoot))] + ProbeCalls(n))
      && (check.outcome.Err? ==> r.outcome == Err(check.outcome.error))
      && (spawnFails && check.outcome == Ok(false) ==>
            r == Trace(check.calls + [Spawn(LaunchArgv(m, quietBoot))], Err(LaunchFailedMessage)))
      && (!spawnFails && check.outcome == Ok(false) ==>
            var (n, wait) := BootPoll(Deadline(start, bootTimeout), polls, 0, start);
            && r.calls == check.calls + [Spawn(LaunchArgv(m, quietBoot))] + ProbeCalls(n)
            && r.outcome == (if wait.Ok? then Ok(wait.value) else Err(wait.error.Message())))
      && (r.outcome.Ok? ==> check.outcome == Ok(false) && !spawnFails)
  {
    var path := EmulatorExecutable(m);
    var check := CheckCommandAvailability(m.isWindows, fs, exec, path);
    if check.outcome.Err? {
      return Trace(check.calls, Err(check.outcome.error));
    }
    if check.outcome.value {
      return Trace(check.calls, Err(NotFoundMessage(path)));
    }
    var launch := LaunchArgv(m, quietBoot);
    var spawned := check.calls + [Spawn(launch)];
    if spawnFails {
      assert spawned == spawned + ProbeCalls(0);
      return Trace(spawned, Err(LaunchFailedMessage));
    }
    var probes, outcome := WaitForEmulatorToBoot(bootTimeout, start, polls);
    r := Trace(spawned + ProbeCalls(probes), if outcome.Ok? then Ok(outcome.value) else Err(outcome.error.Message()));
    assert r.calls[..|check.calls|] == check.calls;
  }
}
