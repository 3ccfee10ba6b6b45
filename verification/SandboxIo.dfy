/** Reading a check's output with a hard cap on memory, and what a check's outcome is
    (app/sandbox_exec.py:106-176). */
module SandboxIo {
  import opened Wrappers

  type Byte = bv8

  /** The bytes of a stream, whatever the chunks they came in. */
  function Flat(chunks: seq<seq<Byte>>): seq<Byte> {
    if chunks == [] then [] else chunks[0] + Flat(chunks[1..])
  }

  lemma {:induction false} FlatAppends(chunks: seq<seq<Byte>>, i: nat)
    requires i < |chunks|
    ensures Flat(chunks[..i + 1]) == Flat(chunks[..i]) + chunks[i]
    ensures Flat(chunks[..i + 1]) <= Flat(chunks)
  {
    if i == 0 {
      assert chunks[..1][1..] == [] && chunks[..0] == [];
    } else {
      FlatAppends(chunks[1..], i - 1);
      assert chunks[..i + 1][1..] == chunks[1..][..i] && chunks[..i][1..] == chunks[1..][..i - 1];
    }
  }

  /** A stream that yields these chunks and then nothing. The result is the first `limit` bytes, and
      the flag says whether the limit was reached by at least one byte, in whatever chunks they come. */
  method ReadCapped(chunks: seq<seq<Byte>>, limit: int) returns (data: seq<Byte>, over: bool)
    requires forall i :: 0 <= i < |chunks| ==> chunks[i] != []
    ensures data <= Flat(chunks)
    ensures |data| == if limit <= 0 then 0 else if limit < |Flat(chunks)| then limit else |Flat(chunks)|
    ensures over <==> |Flat(chunks)| >= 1 && |Flat(chunks)| >= limit
  {
    data, over := [], false;
    var i := 0;
    while true
      invariant i <= |chunks| && !over
      invariant data == Flat(chunks[..i]) && (i > 0 ==> |data| < limit)
      decreases |chunks| - i
    {
      if i == |chunks| {
        assert chunks[..i] == chunks;
        break;
      }
      FlatAppends(chunks, i);
      var chunk, room := chunks[i], limit - |data|;
      if room > 0 {
        data := data + if room < |chunk| then chunk[..room] else chunk;
      }
      i := i + 1;
      if |data| >= limit {
        over := true;
        break;
      }
    }
  }

  // ---- One check ----

  datatype Status = Passed | Failed | Refused | Skipped | TimedOut

  /** A command line after splitting; unbalanced quotes do not split. */
  datatype Command = Absent | Malformed | Words(argv: seq<string>)

  /** What running it does. `read` is when reading its output ends, at the cap or at the end of the
      output, if ever; `exit` is when the process ends, if it does by itself, and with which code. A
      process may close its output and run on. */
  datatype Process = CannotStart | Runs(output: seq<seq<Byte>>, read: Option<nat>, exit: Option<Exit>)

  datatype Exit = Exit(at: nat, code: int)

  datatype Sandbox = Sandbox(isolated: bool, allowed: set<string>, limitKb: nat, timeout: nat)

  /** How the call ends: an exception, never, or a status after some time. */
  datatype Ended = Raises | Never | Ends(status: Status, after: nat)

  /** The last component of a path. */
  function BaseName(path: string): string {
    if path == "" then "" else if Last(path) == '/' then "" else BaseName(path[..|path| - 1]) + [Last(path)]
  }

  /** It is what follows the last slash. */
  lemma {:induction false} BaseNameMeans(path: string)
    ensures '/' !in BaseName(path) && |BaseName(path)| <= |path|
    ensures
      var n := |path| - |BaseName(path)|;
      path == path[..n] + BaseName(path) && (n > 0 ==> path[n - 1] == '/')
  {
    if path != "" && Last(path) != '/' {
      BaseNameMeans(path[..|path| - 1]);
    }
  }

  predicate MayRun(sandbox: Sandbox, command: Command) {
    sandbox.isolated && command.Words? && command.argv != [] && BaseName(command.argv[0]) in sandbox.allowed
  }

  /** It started, and its output was read within the timeout. */
  predicate ReadInTime(sandbox: Sandbox, process: Process) {
    process.Runs? && process.read.Some? && process.read.value <= sandbox.timeout
  }

  /** Its output stayed below the cap. */
  predicate BelowCap(sandbox: Sandbox, process: Process)
    requires process.Runs?
  {
    |Flat(process.output)| == 0 || |Flat(process.output)| < sandbox.limitKb * 1024
  }

  predicate ExitsWith(process: Process, good: bool)
    requires process.Runs?
  {
    process.exit.Some? && (process.exit.value.code == 0) == good
  }

  function Later(a: nat, b: nat): nat { if a < b then b else a }

  /** Reading is bounded by the timeout, waiting for the exit is not. A killed process is taken to end
      at once. */
  method RunCheck(sandbox: Sandbox, command: Command, process: Process) returns (e: Ended)
    requires process.Runs? ==> forall i :: 0 <= i < |process.output| ==> process.output[i] != []
    ensures e.Raises? <==> sandbox.isolated && command.Malformed?
    ensures e.Never? <==>
      MayRun(sandbox, command) && ReadInTime(sandbox, process) && BelowCap(sandbox, process) && process.exit.None?
    ensures e.Ends? && e.status == Passed <==>
      && sandbox.isolated && command.Words? && command.argv != [] && BaseName(command.argv[0]) in sandbox.allowed
      && process.Runs? && process.read.Some? && process.read.value <= sandbox.timeout
      && (|Flat(process.output)| == 0 || |Flat(process.output)| < sandbox.limitKb * 1024)
      && process.exit.Some? && process.exit.value.code == 0
    ensures e.Ends? && e.status == Failed <==>
      && MayRun(sandbox, command) && ReadInTime(sandbox, process)
      && (BelowCap(sandbox, process) ==> ExitsWith(process, false))
    ensures e.Ends? && e.status == TimedOut <==>
      MayRun(sandbox, command) && process.Runs? && !ReadInTime(sandbox, process)
    ensures e.Ends? && e.status == Skipped <==> sandbox.isolated && (command.Absent? || command == Words([]))
    ensures e.Ends? && e.status == Passed ==>
      (e.after <= sandbox.timeout <==> process.exit.value.at <= sandbox.timeout)
  {
    if !sandbox.isolated {
      return Ends(Refused, 0);
    }
    if command.Absent? {
      return Ends(Skipped, 0);
    }
    if command.Malformed? {
      return Raises;
    }
    if command.argv == [] {
      return Ends(Skipped, 0);
    }
    if BaseName(command.argv[0]) !in sandbox.allowed || process.CannotStart? {
      return Ends(Refused, 0);
    }
    if process.read.None? || process.read.value > sandbox.timeout {
      return Ends(TimedOut, sandbox.timeout);
    }
    var data, over := ReadCapped(process.output, sandbox.limitKb * 1024);
    if over {
      return Ends(Failed, process.read.value);
    }
    if process.exit.None? {
      return Never;
    }
    var status := if process.exit.value.code == 0 then Passed else Failed;
    return Ends(status, Later(process.read.value, process.exit.value.at));
  }

  /** For any timeout: a process that closes its output at once, runs on and ends well, passes after
      the timeout is over. */
  method PassesLate(timeout: nat) returns (e: Ended)
    ensures e.Ends? && e.status == Passed && e.after > timeout
  {
    var command := Words(["make"]);
    assert BaseName("make") == "make" by {
      PlainBaseName("make");
    }
    e := RunCheck(Sandbox(true, {"make"}, 256, timeout), command, Runs([], Some(0), Some(Exit(timeout + 1, 0))));
  }

  lemma {:induction false} PlainBaseName(name: string)
    requires '/' !in name
    ensures BaseName(name) == name
  {
    if name != "" {
      PlainBaseName(name[..|name| - 1]);
    }
  }
}
