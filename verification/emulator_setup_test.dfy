/**
 * `EmulatorSetupTest`, the first sketch of the emulator helpers: a fixed SDK root under
 * `user.home`, three fixed commands, and an `executeCommand` that lets every exception escape
 * and runs even the emulator launch synchronously.
 */
module EmulatorSetupTest {
  import opened Results
  import opened Text
  import opened Process
  import opened Platform
  import Old = EmulatorManagerOld

  const SdkSuffix: string := "/Library/Android/sdk"

  /** The checked exceptions `executeCommand` lets escape. */
  datatype Failure = IoException | InterruptedException

  /** The constructor: the SDK root is always `user.home` followed by "/Library/Android/sdk". */
  function SdkPath(host: Host): (path: string)
    ensures IsPrefix(host.userHome, path) && path[|host.userHome|..] == SdkSuffix
  {
    host.userHome + SdkSuffix
  }

  function EmulatorPath(host: Host): (path: string)
    ensures path == host.userHome + "/Library/Android/sdk/emulator/emulator"
  {
    assert SdkSuffix + "/emulator/emulator" == "/Library/Android/sdk/emulator/emulator";
    SdkPath(host) + "/emulator/emulator"
  }

  function ListArgv(host: Host): (argv: seq<string>)
    ensures argv == [host.userHome + "/Library/Android/sdk/emulator/emulator", "-list-avds"]
  {
    [EmulatorPath(host), "-list-avds"]
  }

  function ChmodArgv(host: Host): (argv: seq<string>)
    ensures argv == ["chmod", "+x", host.userHome + "/Library/Android/sdk/emulator/emulator"]
  {
    ["chmod", "+x", EmulatorPath(host)]
  }

  /** The launch command: the five base elements and never a headless flag. */
  function LaunchArgv(host: Host, avdName: string): (argv: seq<string>)
    ensures |argv| == 5
    ensures argv == [host.userHome + "/Library/Android/sdk/emulator/emulator", "-avd", avdName,
                     "-no-snapshot-load", "-no-boot-anim"]
  {
    [EmulatorPath(host), "-avd", avdName, "-no-snapshot-load", "-no-boot-anim"]
  }

  /**
   * `executeCommand`: every line read, each followed by "\n"; the exit code is ignored; an
   * `IOException` or an interrupted wait escapes unchanged.
   */
  function Execute(reply: ProcessReply): (r: Result<string, Failure>)
    ensures r.Ok? <==> reply.Exited?
    ensures r == Err(IoException) <==> reply.IoError?
    ensures r == Err(InterruptedException) <==> reply.WaitInterrupted?
    ensures r.Ok? ==> |r.value| >= |reply.lines|
  {
    match reply
    case Exited(lines, _) => Ok(Collect(lines))
    case IoError => Err(IoException)
    case WaitInterrupted => Err(InterruptedException)
  }

  /** Splitting the collected output at "\n" gives back the lines read, whatever the exit code. */
  lemma OutputRoundTrip(lines: seq<string>, exitCode: int)
    requires forall i :: 0 <= i < |lines| ==> IsLine(lines[i])
    ensures Execute(Exited(lines, exitCode)).Ok?
    ensures SplitLines(Execute(Exited(lines, exitCode)).value) == lines
  {
    SplitCollect(lines);
  }

  /** The output this class collects is the output the two managers collect. */
  lemma SameOutputAsManagers(reply: ProcessReply)
    ensures Execute(reply).Ok? <==> ExecuteCommand(reply).Output?
    ensures Execute(reply).Ok? ==> Execute(reply).value == ExecuteCommand(reply).text
  {
  }

  /** One of the three test steps: the command it runs, synchronously and without a timeout, and its outcome. */
  datatype Step = Step(call: Call, outcome: Result<string, Failure>)

  function VerifyAvdList(host: Host, exec: seq<string> -> ProcessReply): (s: Step)
    ensures s.call == Run(ListArgv(host), None)
    ensures s.outcome.Err? <==> !exec(ListArgv(host)).Exited?
    ensures s.outcome == Err(IoException) <==> exec(ListArgv(host)).IoError?
    ensures s.outcome == Err(InterruptedException) <==> exec(ListArgv(host)).WaitInterrupted?
    ensures s.outcome.Ok? ==> s.outcome.value == ExecuteCommand(exec(ListArgv(host))).text
  {
    Step(Run(ListArgv(host), None), Execute(exec(ListArgv(host))))
  }

  function EnsureEmulatorPermissions(host: Host, exec: seq<string> -> ProcessReply): (s: Step)
    ensures s.call == Run(ChmodArgv(host), None)
    ensures s.outcome.Err? <==> !exec(ChmodArgv(host)).Exited?
    ensures s.outcome == Err(IoException) <==> exec(ChmodArgv(host)).IoError?
    ensures s.outcome == Err(InterruptedException) <==> exec(ChmodArgv(host)).WaitInterrupted?
    ensures s.outcome.Ok? ==> s.outcome.value == ExecuteCommand(exec(ChmodArgv(host))).text
  {
    Step(Run(ChmodArgv(host), None), Execute(exec(ChmodArgv(host))))
  }

  /** `testEmulatorLaunch`: the emulator is run, not spawned, so the step lasts as long as the emulator. */
  function TestEmulatorLaunch(host: Host, avdName: string, exec: seq<string> -> ProcessReply): (s: Step)
    ensures s.call.Run? && s.call.timeoutSeconds.None?
    ensures s.call.argv == LaunchArgv(host, avdName)
    ensures s.outcome.Err? <==> !exec(LaunchArgv(host, avdName)).Exited?
    ensures s.outcome == Err(IoException) <==> exec(LaunchArgv(host, avdName)).IoError?
    ensures s.outcome == Err(InterruptedException) <==> exec(LaunchArgv(host, avdName)).WaitInterrupted?
    ensures s.outcome.Ok? ==> s.outcome.value == ExecuteCommand(exec(LaunchArgv(host, avdName))).text
  {
    Step(Run(LaunchArgv(host, avdName), None), Execute(exec(LaunchArgv(host, avdName))))
  }

  /**
   * The old manager constructed with the same partial path builds the same three commands; its
   * launch differs only in running detached and in the optional headless flag.
   */
  lemma SameCommandsAsOldManager(host: Host, avdName: string)
    ensures var m := Old.NewManager(host, SdkSuffix, avdName);
      && ListArgv(host) == Old.ListArgv(m)
      && ChmodArgv(host) == Old.ChmodArgv(m)
      && LaunchArgv(host, avdName) == Old.LaunchArgv(m, false)
  {
  }
}
