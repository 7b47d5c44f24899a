/** `ExecProcess`: the handle on a command started with `pebble exec`. It
    waits for the process (with escalation on timeout), collects its output
    once and remembers it, and forwards signals while the process runs. The
    underlying `subprocess.Popen` is an oracle that answers from a script and
    records every call made on it. */
module Process {
  import opened Types
  import opened PyStr

  /** A call made on the `Popen` handle. A timeout is the text of the number
      of seconds, or absent to wait without limit. */
  datatype Call =
    | WaitCall(timeout: Option<string>)
    | CommunicateCall(input: Option<string>, timeout: Option<string>)
    | TerminateCall
    | KillCall
    | SignalCall(number: int)

  /** How the process behaves: its exit status, which streams are pipes and
      what reading them yields, and which calls (by their position in the
      trace) run into their timeout. */
  datatype Script = Script(
    returncode: int, stdinPipe: bool, stdoutPipe: Option<string>, stderrPipe: Option<string>,
    expires: nat -> bool)

  class Popen {
    const args: seq<string>
    const script: Script
    var trace: seq<Call>

    constructor(args: seq<string>, script: Script)
      ensures this.args == args && this.script == script && trace == []
    {
      this.args := args;
      this.script := script;
      trace := [];
    }

    /** Whether the next call, if it has a timeout, runs into it. */
    predicate ExpiresNext(timeout: Option<string>)
      reads this
    {
      timeout.Some? && script.expires(|trace|)
    }

    /** `wait(timeout)`: true when it raised `TimeoutExpired`. */
    method Wait(timeout: Option<string>) returns (expired: bool)
      modifies this
      ensures expired == old(ExpiresNext(timeout))
      ensures trace == old(trace) + [WaitCall(timeout)]
    {
      expired := ExpiresNext(timeout);
      trace := trace + [WaitCall(timeout)];
    }

    /** `communicate(input, timeout)`: the contents of the output pipes
      (absent for a stream that is not a pipe), unless it timed out. */
    method Communicate(input: Option<string>, timeout: Option<string>)
      returns (expired: bool, out: Option<string>, err: Option<string>)
      modifies this
      ensures expired == old(ExpiresNext(timeout))
      ensures out == script.stdoutPipe && err == script.stderrPipe
      ensures trace == old(trace) + [CommunicateCall(input, timeout)]
    {
      expired := ExpiresNext(timeout);
      out, err := script.stdoutPipe, script.stderrPipe;
      trace := trace + [CommunicateCall(input, timeout)];
    }

    method Terminate()
      modifies this
      ensures trace == old(trace) + [TerminateCall]
    {
      trace := trace + [TerminateCall];
    }

    method Kill()
      modifies this
      ensures trace == old(trace) + [KillCall]
    {
      trace := trace + [KillCall];
    }

    method Signal(number: int)
      modifies this
      ensures trace == old(trace) + [SignalCall(number)]
    {
      trace := trace + [SignalCall(number)];
    }
  }

  /** The text of an optional stream, "" when there is none. */
  function TextOf(s: Option<string>): string
  {
    if s.Some? then s.value else ""
  }

  /** The combination step of `wait_output`: with `combineStderr` and a
      non-empty standard error, the error text is appended to the output and
      the error becomes absent; appending to an absent output is a
      `TypeError`. Otherwise both pass through. */
  function Combine(combineStderr: bool, out: Option<string>, err: Option<string>): (r: Result<(Option<string>, Option<string>)>)
    ensures r.Err? <==> combineStderr && Given(err) && out.None?
    ensures r.Err? ==> r.error == TypeError
    ensures r.Ok? && !(combineStderr && Given(err)) ==> r.value == (out, err)
  {
    if combineStderr && Given(err) then
      if out.None? then Err(TypeError) else Ok((Some(out.value + err.value), None))
    else Ok((out, err))
  }

  /** Combining loses no text and keeps its order, and with `combineStderr`
      no non-empty standard error is left over. */
  lemma CombineKeepsText(combineStderr: bool, out: Option<string>, err: Option<string>)
    requires Combine(combineStderr, out, err).Ok?
    ensures var (o, e) := Combine(combineStderr, out, err).value;
      && TextOf(o) + TextOf(e) == TextOf(out) + TextOf(err)
      && (combineStderr ==> !Given(e))
      && (o.None? ==> out.None?)
  {
    var (o, e) := Combine(combineStderr, out, err).value;
    if !(combineStderr && Given(err)) {
      if combineStderr && err.Some? {
        assert TextOf(o) + TextOf(e) == TextOf(out) + [];
        assert TextOf(out) + [] == TextOf(out);
      }
    } else {
      assert TextOf(e) == [];
      assert TextOf(o) + [] == TextOf(o);
    }
  }

  class ExecProcess {
    const command: seq<string>
    const process: Popen
    const stdinContent: Option<string>
    const combineStderr: bool
    const timeout: Option<string>
    /** The streams the handle exposes: whether standard input is a pipe,
        and the output pipes (identified by what reading them yields). */
    const stdin: bool
    const stdout: Option<string>
    const stderr: Option<string>
    var stdoutData: Option<string>
    var stderrData: Option<string>
    var finished: bool

    /** Output is only ever stored once the process has finished. */
    predicate Valid()
      reads this
    {
      (stdoutData.Some? || stderrData.Some?) ==> finished
    }

    /** The output `wait_output` hands back without asking the process again. */
    predicate Memoised()
      reads this
    {
      finished && stdoutData.Some?
    }

    constructor(command: seq<string>, process: Popen, stdinContent: Option<string>, combineStderr: bool, timeout: Option<string>)
      ensures this.command == command && this.process == process
      ensures this.stdinContent == stdinContent && this.combineStderr == combineStderr && this.timeout == timeout
      ensures !finished && stdoutData.None? && stderrData.None? && Valid()
      ensures stdin == process.script.stdinPipe && stdout == process.script.stdoutPipe
      ensures stderr == if combineStderr then None else process.script.stderrPipe
    {
      this.command := command;
      this.process := process;
      this.stdinContent := stdinContent;
      this.combineStderr := combineStderr;
      this.timeout := timeout;
      stdoutData := None;
      stderrData := None;
      finished := false;
      stdin := process.script.stdinPipe;
      stdout := process.script.stdoutPipe;
      stderr := if combineStderr then None else process.script.stderrPipe;
    }

    /** `wait()`: nothing happens once finished. Otherwise one wait with the
        configured timeout; if it expires the process is terminated and
        waited for again, and killed if that wait expires too, and the call
        fails with a timeout, still unfinished. If the process exited, the
        handle is finished, and a non-zero exit fails with an `ExecError`
        carrying what is left in the output pipes ("" for a missing one). */
    method Wait() returns (r: Result<()>)
      requires Valid()
      modifies this, process
      ensures Valid()
      ensures unchanged(this`stdoutData) && unchanged(this`stderrData)
      ensures old(finished) ==> r == Ok(()) && finished && process.trace == old(process.trace)
      ensures !old(finished) && old(process.ExpiresNext(timeout)) ==>
        && r == Err(ExecTimeoutError(command, timeout))
        && !finished
        && process.trace == old(process.trace) + [WaitCall(timeout), TerminateCall, WaitCall(timeout)]
             + (if process.script.expires(|old(process.trace)| + 2) then [KillCall] else [])
      ensures !old(finished) && !old(process.ExpiresNext(timeout)) ==>
        && finished
        && process.trace == old(process.trace) + [WaitCall(timeout)]
        && r == if process.script.returncode == 0 then Ok(())
                else Err(ExecError(command, process.script.returncode,
                                   Some(TextOf(process.script.stdoutPipe)), Some(TextOf(process.script.stderrPipe))))
    {
      if finished {
        return Ok(());
      }
      var expired := process.Wait(timeout);
      if expired {
        process.Terminate();
        var again := process.Wait(timeout);
        if again {
          process.Kill();
        }
        return Err(ExecTimeoutError(command, timeout));
      }
      finished := true;
      if process.script.returncode == 0 {
        return Ok(());
      }
      var out := "";
      var err := "";
      if process.script.stdoutPipe.Some? {
        out := process.script.stdoutPipe.value;
      }
      if process.script.stderrPipe.Some? {
        err := process.script.stderrPipe.value;
      }
      return Err(ExecError(command, process.script.returncode, Some(out), Some(err)));
    }

    /** `wait_output()`: once finished with output stored, the stored pair is
        returned and the process is not asked again. Otherwise one
        `communicate`; on timeout the process is killed and waited for
        without limit, the call fails with a timeout and nothing is stored.
        Otherwise the handle is finished, the output is combined as
        `Combine` says and stored, and a non-zero exit fails with an
        `ExecError` carrying the combined output. */
    method WaitOutput() returns (r: Result<(Option<string>, Option<string>)>)
      requires Valid()
      modifies this, process
      ensures Valid()
      ensures old(Memoised()) ==>
        && r == Ok((old(stdoutData), old(stderrData)))
        && process.trace == old(process.trace)
        && unchanged(this)
      ensures !old(Memoised()) && old(process.ExpiresNext(timeout)) ==>
        && r == Err(ExecTimeoutError(command, timeout))
        && process.trace == old(process.trace) + [CommunicateCall(stdinContent, timeout), KillCall, WaitCall(None)]
        && unchanged(this)
      ensures !old(Memoised()) && !old(process.ExpiresNext(timeout)) ==>
        && finished
        && process.trace == old(process.trace) + [CommunicateCall(stdinContent, timeout)]
        && var c := Combine(combineStderr, process.script.stdoutPipe, process.script.stderrPipe);
          && (c.Err? ==> r == Err(c.error) && stdoutData == old(stdoutData) && stderrData == old(stderrData))
          && (c.Ok? ==> (stdoutData, stderrData) == c.value)
          && (c.Ok? && process.script.returncode != 0 ==>
                r == Err(ExecError(command, process.script.returncode, c.value.0, c.value.1)))
          && (c.Ok? && process.script.returncode == 0 ==> r == Ok(c.value))
    {
      if finished && stdoutData.Some? {
        return Ok((stdoutData, stderrData));
      }
      var expired, out, err := process.Communicate(stdinContent, timeout);
      if expired {
        process.Kill();
        var _ := process.Wait(None);
        return Err(ExecTimeoutError(command, timeout));
      }
      finished := true;
      if combineStderr && err.Some? && err.value != [] {
        if out.None? {
          return Err(TypeError);
        }
        out := Some(out.value + err.value);
        err := None;
      }
      stdoutData := out;
      stderrData := err;
      if process.script.returncode != 0 {
        return Err(ExecError(command, process.script.returncode, out, err));
      }
      return Ok((out, err));
    }

    /** `send_signal(sig)`: a name is upper-cased and looked up in the
        `signal` module (a missing name is an `AttributeError`, a name that
        is not a number fails the assertion), then the signal goes to the
        process only while it has not finished. */
    method SendSignal(sig: Signal, signals: SignalModule) returns (r: Result<()>)
      modifies process
      ensures r == (match ResolveSignal(sig, signals) case Err(e) => Err(e) case Ok(_) => Ok(()))
      ensures process.trace == if r.Ok? && !finished then old(process.trace) + [SignalCall(ResolveSignal(sig, signals).value)]
                               else old(process.trace)
    {
      var number: int;
      match sig {
        case SignalNumber(n) =>
          number := n;
        case SignalName(name) =>
          var attribute := signals.attribute(Upper(name));
          if attribute.Missing? {
            return Err(AttributeError(Upper(name)));
          }
          if attribute.OtherAttribute? {
            return Err(AssertionError);
          }
          number := attribute.number;
      }
      if !finished {
        process.Signal(number);
      }
      return Ok(());
    }
  }

  /** The signal number `send_signal` resolves a signal to. */
  function ResolveSignal(sig: Signal, signals: SignalModule): (r: Result<int>)
    ensures sig.SignalNumber? ==> r == Ok(sig.number)
    ensures sig.SignalName? ==> (r.Ok? <==> signals.attribute(Upper(sig.name)).IntAttribute?)
  {
    match sig
    case SignalNumber(n) => Ok(n)
    case SignalName(name) =>
      match signals.attribute(Upper(name))
      case Missing => Err(AttributeError(Upper(name)))
      case OtherAttribute => Err(AssertionError)
      case IntAttribute(n) => Ok(n)
  }
}
