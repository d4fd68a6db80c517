/**
 * `EmulatorManagerOld`, the predecessor of `EmulatorManager`: the SDK root is always `user.home`
 * followed by the partial path, the binary path is fixed to Unix form, nothing is checked for
 * availability, commands wait without a timeout, the headless flag ignores the OS, and the boot
 * wait has no deadline.
 *
 * The boot wait of this class can run forever, so it is modelled through an observation window:
 * `fuel` loop iterations are followed and the wait is either over by then or still `Pending`.
 */
module EmulatorManagerOld {
  import opened Results
  import opened Text
  import opened Process
  import opened Platform
  import Current = EmulatorManager

  const BootInterruptedMessage: string := "Interrupted while waiting for emulator boot"

  datatype Manager = Manager(sdkPath: string, avdName: string)

  /** The constructor: the SDK root is `user.home` + `partialSdkPath`; the environment is never read. */
  function NewManager(host: Host, partialSdkPath: string, avdName: string): (m: Manager)
    ensures m.avdName == avdName
    ensures IsPrefix(host.userHome, m.sdkPath) && m.sdkPath[|host.userHome|..] == partialSdkPath
  {
    Manager(host.userHome + partialSdkPath, avdName)
  }

  /** Two hosts that agree on `user.home` give the same manager, whatever their environments and OS. */
  lemma EnvironmentIgnored(h1: Host, h2: Host, partialSdkPath: string, avdName: string)
    requires h1.userHome == h2.userHome
    ensures NewManager(h1, partialSdkPath, avdName) == NewManager(h2, partialSdkPath, avdName)
  {
  }

  /** The binary is `<sdk>/emulator/emulator` on every OS. */
  function EmulatorPath(m: Manager): (path: string)
    ensures IsPrefix(m.sdkPath, path) && path[|m.sdkPath|..] == "/emulator/emulator"
  {
    m.sdkPath + "/emulator/emulator"
  }

  /** The launch command: the five base elements, then "-no-window" exactly when `quietBoot`. */
  function LaunchArgv(m: Manager, quietBoot: bool): (argv: seq<string>)
    ensures |argv| == 5 || |argv| == 6
    ensures argv[..5] == [EmulatorPath(m), "-avd", m.avdName, "-no-snapshot-load", "-no-boot-anim"]
    ensures |argv| == 6 <==> quietBoot
    ensures |argv| == 6 ==> argv[5] == "-no-window"
  {
    var base := [EmulatorPath(m), "-avd", m.avdName, "-no-snapshot-load", "-no-boot-anim"];
    if quietBoot then base + ["-no-window"] else base
  }

  function ListArgv(m: Manager): seq<string> {
    [EmulatorPath(m), "-list-avds"]
  }

  function ChmodArgv(m: Manager): seq<string> {
    ["chmod", "+x", EmulatorPath(m)]
  }

  /**
   * One command through `executeCommand`, which waits without a timeout: an `IOException` is
   * caught by the caller and dropped, an interrupt escapes as a runtime exception.
   */
  function RunDroppingIoErrors(argv: seq<string>, exec: seq<string> -> ProcessReply): (r: Trace<()>)
    ensures r.calls == [Run(argv, None)]
    ensures r.outcome.Err? <==> exec(argv).WaitInterrupted?
    ensures r.outcome.Err? ==> r.outcome.error == CommandInterruptedMessage
  {
    if ExecuteCommand(exec(argv)).Interrupted? then Trace([Run(argv, None)], Err(CommandInterruptedMessage))
    else Trace([Run(argv, None)], Ok(()))
  }

  /** `verifyAvdList`: always runs "-list-avds", with no availability check first. */
  function VerifyAvdList(m: Manager, exec: seq<string> -> ProcessReply): (r: Trace<()>)
    ensures r.calls == [Run([EmulatorPath(m), "-list-avds"], None)]
    ensures r.outcome.Err? <==> exec(ListArgv(m)).WaitInterrupted?
    ensures r.outcome.Err? ==> r.outcome.error == CommandInterruptedMessage
  {
    RunDroppingIoErrors(ListArgv(m), exec)
  }

  /** `ensureEmulatorPermissions`: always runs `chmod +x`, on every OS. */
  function EnsureEmulatorPermissions(m: Manager, exec: seq<string> -> ProcessReply): (r: Trace<()>)
    ensures r.calls == [Run(["chmod", "+x", EmulatorPath(m)], None)]
    ensures r.outcome.Err? <==> exec(ChmodArgv(m)).WaitInterrupted?
    ensures r.outcome.Err? ==> r.outcome.error == CommandInterruptedMessage
  {
    RunDroppingIoErrors(ChmodArgv(m), exec)
  }

  /** `stopEmulator`: sends exactly `adb emu kill`, without looking for adb first; I/O errors are dropped. */
  function StopEmulator(exec: seq<string> -> ProcessReply): (r: Trace<()>)
    ensures r.calls == [Run(["adb", "emu", "kill"], None)]
    ensures r.outcome.Ok? <==> !exec(Current.KillArgv).WaitInterrupted?
    ensures r.outcome.Err? ==> r.outcome.error == CommandInterruptedMessage
  {
    RunDroppingIoErrors(Current.KillArgv, exec)
  }

  // ---------------------------------------------------------------------------------------------
  // The boot wait without a deadline
  // ---------------------------------------------------------------------------------------------

  /** Where the wait stands after the observed iterations: over, or still polling. */
  datatype Progress =
    | Finished(probes: nat, outcome: Result<Current.BootStatus, Current.BootFailure>)
    | Pending(probes: nat)

  /** The message of the runtime exception each failure becomes in this class. */
  function FailureMessage(f: Current.BootFailure): (msg: string)
    ensures f.SleepWasInterrupted? ==> msg == BootInterruptedMessage
    ensures !f.SleepWasInterrupted? ==> msg == f.Message()
  {
    if f.SleepWasInterrupted? then BootInterruptedMessage else f.Message()
  }

  /**
   * `waitForEmulatorToBoot`, followed for `fuel` iterations from the k-th: each iteration sleeps
   * 5 s and probes; only a "1", an interrupt or a probe `IOException` ends the loop.
   */
  function BootPoll(polls: nat -> Current.Poll, k: nat, fuel: nat): (r: Progress)
    ensures r.probes >= k
    decreases fuel
  {
    if fuel == 0 then Pending(k)
    else
      match Current.Classify(polls(k))
      case SleepInterrupted => Finished(k, Err(Current.SleepWasInterrupted))
      case ProbeFailed => Finished(k + 1, Err(Current.ProbeIoFailure))
      case ProbeInterrupted => Finished(k + 1, Err(Current.ProbeWaitInterrupted))
      case Answered(ready) =>
        if ready then Finished(k + 1, Ok(Current.Booted)) else BootPoll(polls, k + 1, fuel - 1)
  }

  /** The wait is still going after `fuel` iterations exactly when every one of them probed "not ready". */
  lemma {:induction false} PendingIffNeverReady(polls: nat -> Current.Poll, k: nat, fuel: nat)
    ensures BootPoll(polls, k, fuel).Pending? <==> forall j :: k <= j < k + fuel ==> Current.NotReady(polls(j))
    ensures BootPoll(polls, k, fuel).Pending? ==> BootPoll(polls, k, fuel).probes == k + fuel
    decreases fuel
  {
    if fuel > 0 {
      PendingIffNeverReady(polls, k + 1, fuel - 1);
      if Current.NotReady(polls(k)) {
        assert Current.Classify(polls(k)) == Current.Answered(false);
      }
    }
  }

  /**
   * The loop never gives up: a finished wait ended on a "1" read right after probes that all read
   * "not ready", or on a failure; it never reports a timeout.
   */
  lemma {:induction false} FinishedFacts(polls: nat -> Current.Poll, k: nat, fuel: nat)
    ensures var r := BootPoll(polls, k, fuel);
      r.Finished? ==>
        && r.outcome != Ok(Current.TimedOut)
        && r.probes <= k + fuel
        && (r.outcome == Ok(Current.Booted) ==>
              r.probes > k && Current.Ready(polls(r.probes - 1))
              && forall j :: k <= j < r.probes - 1 ==> Current.NotReady(polls(j)))
    decreases fuel
  {
    if fuel > 0 && Current.Classify(polls(k)) == Current.Answered(false) {
      FinishedFacts(polls, k + 1, fuel - 1);
    }
  }

  /** Watching longer does not change a wait that is already over: the window only observes. */
  lemma {:induction false} FinishedIsStable(polls: nat -> Current.Poll, k: nat, fuel: nat, more: nat)
    requires BootPoll(polls, k, fuel).Finished?
    ensures BootPoll(polls, k, fuel + more) == BootPoll(polls, k, fuel)
    decreases fuel
  {
    if Current.Classify(polls(k)) == Current.Answered(false) {
      FinishedIsStable(polls, k + 1, fuel - 1, more);
    }
  }

  /**
   * As long as no iteration starts at or after the deadline, the old loop and the deadline-bounded
   * loop of `EmulatorManager` issue the same probes and end the same way.
   */
  lemma {:induction false} AgreesWithBoundedLoop(deadline: int, start: int, polls: nat -> Current.Poll, k: nat, fuel: nat)
    requires forall j :: k <= j < k + fuel ==> Current.Clock(start, polls, j) < deadline
    ensures var r := BootPoll(polls, k, fuel);
      && (r.Finished? ==> Current.BootPoll(deadline, polls, k, Current.Clock(start, polls, k)) == (r.probes, r.outcome))
      && (r.Pending? ==> Current.BootPoll(deadline, polls, k, Current.Clock(start, polls, k))
                         == Current.BootPoll(deadline, polls, k + fuel, Current.Clock(start, polls, k + fuel)))
    decreases fuel
  {
    if fuel > 0 {
      var now := Current.Clock(start, polls, k);
      assert now < deadline;
      Current.BootPollStep(deadline, polls, k, now);
      BootPollStep(polls, k, fuel);
      if Current.Classify(polls(k)) == Current.Answered(false) {
        assert Current.Clock(start, polls, k + 1) == now + Current.PollIntervalMillis + polls(k).lag;
        AgreesWithBoundedLoop(deadline, start, polls, k + 1, fuel - 1);
      }
    }
  }

  /** One observed iteration of the wait, by cases on how the iteration ends. */
  lemma BootPollStep(polls: nat -> Current.Poll, k: nat, fuel: nat)
    requires fuel > 0
    ensures Current.Classify(polls(k)) == Current.SleepInterrupted ==>
      BootPoll(polls, k, fuel) == Finished(k, Err(Current.SleepWasInterrupted))
    ensures Current.Classify(polls(k)) == Current.ProbeFailed ==>
      BootPoll(polls, k, fuel) == Finished(k + 1, Err(Current.ProbeIoFailure))
    ensures Current.Classify(polls(k)) == Current.ProbeInterrupted ==>
      BootPoll(polls, k, fuel) == Finished(k + 1, Err(Current.ProbeWaitInterrupted))
    ensures Current.Classify(polls(k)) == Current.Answered(true) ==>
      BootPoll(polls, k, fuel) == Finished(k + 1, Ok(Current.Booted))
    ensures Current.Classify(polls(k)) == Current.Answered(false) ==>
      BootPoll(polls, k, fuel) == BootPoll(polls, k + 1, fuel - 1)
  {
  }

  /** Where every probe reads "not ready", the old loop never ends, while the new one times out. */
  lemma NeverReadyHangsOnlyWithoutDeadline(deadline: int, start: int, polls: nat -> Current.Poll, fuel: nat)
    requires forall j :: 0 <= j ==> Current.NotReady(polls(j))
    ensures BootPoll(polls, 0, fuel) == Pending(fuel)
    ensures Current.BootPoll(deadline, polls, 0, start).1 == Ok(Current.TimedOut)
  {
    PendingIffNeverReady(polls, 0, fuel);
    Current.NeverReadyTimesOut(deadline, polls, 0, start);
  }

  /** The probe command of this class, which waits without a timeout, once per probe. */
  function ProbeCalls(n: nat): (calls: seq<Call>)
    ensures |calls| == n
    ensures forall i :: 0 <= i < n ==> calls[i] == Run(Current.ProbeArgv, None)
  {
    seq(n, _ => Run(Current.ProbeArgv, None))
  }

  /**
   * `startEmulator`, observed for `fuel` boot iterations: spawns the launch command with no
   * availability check, then waits; `None` means the wait was still going. A spawn `IOException`
   * becomes "Error starting the emulator".
   */
  function StartEmulator(m: Manager, quietBoot: bool, spawnFails: bool, polls: nat -> Current.Poll, fuel: nat)
    : (r: (seq<Call>, Option<Result<(), string>>))
    ensures |r.0| >= 1 && r.0[0] == Spawn(LaunchArgv(m, quietBoot))
    ensures spawnFails ==> r == ([Spawn(LaunchArgv(m, quietBoot))], Some(Err(Current.LaunchFailedMessage)))
    ensures !spawnFails ==>
      var p := BootPoll(polls, 0, fuel);
      && r.0 == [Spawn(LaunchArgv(m, quietBoot))] + ProbeCalls(p.probes)
      && (r.1.None? <==> p.Pending?)
      && (r.1 == Some(Ok(())) <==> p.Finished? && p.outcome == Ok(Current.Booted))
      && (p.Finished? && p.outcome.Err? ==> r.1 == Some(Err(FailureMessage(p.outcome.error))))
  {
    var spawn := [Spawn(LaunchArgv(m, quietBoot))];
    if spawnFails then (spawn, Some(Err(Current.LaunchFailedMessage)))
    else
      var p := BootPoll(polls, 0, fuel);
      FinishedFacts(polls, 0, fuel);
      assert p.Finished? && p.outcome.Ok? ==> p.outcome.value == Current.Booted;
      var outcome :=
        match p
        case Pending(_) => None
        case Finished(_, o) => Some(if o.Ok? then Ok(()) else Err(FailureMessage(o.error)));
      (spawn + ProbeCalls(p.probes), outcome)
  }

  // ---------------------------------------------------------------------------------------------
  // Against the current manager
  // ---------------------------------------------------------------------------------------------

  /**
   * Off Windows and without SDK variables, the two managers build the same binary path and list,
   * chmod and launch commands.
   */
  lemma SameCommandsOffWindows(host: Host, avdName: string, partialSdkPath: string, quietBoot: bool)
    requires !Current.IsWindowsName(host.osName)
    requires !Current.IsSet(host.env, Current.SdkRootVariable) && !Current.IsSet(host.env, Current.AndroidHomeVariable)
    ensures var cur := Current.NewManager(host, avdName, partialSdkPath);
      var prev := NewManager(host, partialSdkPath, avdName);
      && Current.EmulatorExecutable(cur) == EmulatorPath(prev)
      && Current.ListArgv(cur) == ListArgv(prev)
      && Current.ChmodArgv(cur) == ChmodArgv(prev)
      && Current.LaunchArgv(cur, quietBoot) == LaunchArgv(prev, quietBoot)
  {
    var cur := Current.NewManager(host, avdName, partialSdkPath);
    assert Current.EmulatorBase(cur) == host.userHome + partialSdkPath + "/emulator/emulator";
  }

  /** On Windows a quiet boot differs: only the old manager passes "-no-window". */
  lemma QuietBootDiffersOnWindows(host: Host, avdName: string, partialSdkPath: string)
    requires Current.IsWindowsName(host.osName)
    ensures |LaunchArgv(NewManager(host, partialSdkPath, avdName), true)| == 6
    ensures |Current.LaunchArgv(Current.NewManager(host, avdName, partialSdkPath), true)| == 5
  {
  }
}
