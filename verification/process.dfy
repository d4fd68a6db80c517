/**
 * External processes as seen by the emulator managers. Nothing is spawned: what a process does is an
 * oracle reply, and each manager operation returns the commands it issued together with its outcome.
 */
module Process {
  import opened Results
  import opened Text

  /**
   * What running one command produced: the lines read from its merged stdout/stderr and its exit
   * status, or an `IOException` from starting it or reading it, or an interrupt while waiting for it.
   */
  datatype ProcessReply =
    | Exited(lines: seq<string>, exitCode: int)
    | IoError
    | WaitInterrupted

  /**
   * A command issued by a manager: `Run` waits for the process (with a timeout in seconds, or none),
   * `Spawn` starts it detached and never waits.
   */
  datatype Call =
    | Run(argv: seq<string>, timeoutSeconds: Option<int>)
    | Spawn(argv: seq<string>)

  /** The commands an operation issued, in order, and how it ended (`Err` carries a runtime exception's message). */
  datatype Trace<+T> = Trace(calls: seq<Call>, outcome: Result<T, string>)

  /** What `executeCommand` hands back to its caller in the two emulator managers. */
  datatype CommandOutcome =
    | Output(text: string)
    | IoFailure
    | Interrupted

  const CommandInterruptedMessage: string := "Command execution interrupted"

  /** A line as `BufferedReader.readLine` delivers it: without any line terminator. */
  predicate IsLine(l: string) {
    '\n' !in l && '\r' !in l
  }

  /** The output buffer: every line read, each followed by a single "\n". */
  function Collect(lines: seq<string>): (r: string)
    ensures |r| >= |lines|
    ensures |lines| > 0 ==> |r| > 0 && r[|r| - 1] == '\n'
  {
    if lines == [] then "" else lines[0] + "\n" + Collect(lines[1..])
  }

  /** Splits text at each "\n"; the text after the last "\n" is dropped (it is empty for collected output). */
  function SplitLines(s: string): seq<string>
  {
    SplitFrom(s, "")
  }

  function SplitFrom(s: string, current: string): seq<string>
    decreases |s|
  {
    if s == [] then []
    else if s[0] == '\n' then [current] + SplitFrom(s[1..], "")
    else SplitFrom(s[1..], current + [s[0]])
  }

  lemma {:induction false} SplitFromLine(l: string, rest: string, current: string)
    requires '\n' !in l
    ensures SplitFrom(l + "\n" + rest, current) == [current + l] + SplitFrom(rest, "")
    decreases |l|
  {
    var s := l + "\n" + rest;
    if l == [] {
      assert s[0] == '\n' && s[1..] == rest;
      assert current + l == current;
    } else {
      assert s[0] == l[0] && s[1..] == l[1..] + "\n" + rest;
      SplitFromLine(l[1..], rest, current + [l[0]]);
      assert current + [l[0]] + l[1..] == current + l;
    }
  }

  /** Splitting the collected output at "\n" recovers exactly the lines that were read. */
  lemma {:induction false} SplitCollect(lines: seq<string>)
    requires forall i :: 0 <= i < |lines| ==> IsLine(lines[i])
    ensures SplitLines(Collect(lines)) == lines
    decreases |lines|
  {
    if lines != [] {
      assert IsLine(lines[0]);
      SplitFromLine(lines[0], Collect(lines[1..]), "");
      assert "" + lines[0] == lines[0];
      assert forall i :: 0 <= i < |lines[1..]| ==> IsLine(lines[1..][i]) by {
        forall i | 0 <= i < |lines[1..]| ensures IsLine(lines[1..][i]) {
          assert lines[1..][i] == lines[i + 1];
        }
      }
      SplitCollect(lines[1..]);
      assert lines == [lines[0]] + lines[1..];
    }
  }

  lemma {:induction false} CollectAllSpace(lines: seq<string>)
    ensures AllSpace(Collect(lines)) <==> forall i :: 0 <= i < |lines| ==> AllSpace(lines[i])
    decreases |lines|
  {
    if lines != [] {
      CollectAllSpace(lines[1..]);
      AllSpaceConcat(lines[0] + "\n", Collect(lines[1..]));
      AllSpaceConcat(lines[0], "\n");
      if forall i :: 0 <= i < |lines[1..]| ==> AllSpace(lines[1..][i]) {
        assert forall i :: 1 <= i < |lines| ==> AllSpace(lines[i]) by {
          forall i | 1 <= i < |lines| ensures AllSpace(lines[i]) {
            assert lines[i] == lines[1..][i - 1];
          }
        }
      }
    }
  }

  /** Collected output is blank after `trim` exactly when every line read was blank. */
  lemma CollectBlankIff(lines: seq<string>)
    ensures Trim(Collect(lines)) == [] <==> forall i :: 0 <= i < |lines| ==> AllSpace(lines[i])
  {
    TrimEmptyIff(Collect(lines));
    CollectAllSpace(lines);
  }

  /**
   * `executeCommand` of both emulator managers: the collected output on completion, whatever the
   * exit code; an `IOException` passes through; an interrupt becomes a runtime exception.
   */
  function ExecuteCommand(reply: ProcessReply): (r: CommandOutcome)
    ensures r.Output? <==> reply.Exited?
    ensures r.IoFailure? <==> reply.IoError?
    ensures r.Output? ==> r.text == Collect(reply.lines)
  {
    match reply
    case Exited(lines, _) => Output(Collect(lines))
    case IoError => IoFailure
    case WaitInterrupted => Interrupted
  }

  /** A non-zero exit status is never an error: two replies that differ only in exit code look the same. */
  lemma ExitCodeIgnored(lines: seq<string>, code1: int, code2: int)
    ensures ExecuteCommand(Exited(lines, code1)) == ExecuteCommand(Exited(lines, code2))
    ensures ExecuteCommand(Exited(lines, code1)) == Output(Collect(lines))
  {
  }
}
