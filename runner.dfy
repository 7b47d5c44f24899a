/** `_run_command`: how the outcome of running the `pebble` binary becomes
    the completed process or one of the client's errors. */
module Runner {
  import opened Types

  /** What `subprocess.run` did: the binary ran and exited (with its captured
      output), it ran past the timeout, or the binary was not found. */
  datatype RunOutcome = Exited(returncode: int, stdout: string, stderr: string) | TimeoutExpired | BinaryNotFound

  /** `subprocess.CompletedProcess`. */
  datatype Completed = Completed(args: seq<string>, returncode: int, stdout: string, stderr: string)

  /** The message of the `APIError` for a failed command: the standard error
      when there is any, the description of the exit status otherwise. */
  function FailureMessage(fullCommand: seq<string>, returncode: int, stderr: string): (m: Message)
    ensures m.Text? <==> stderr != []
    ensures m.Text? ==> m.text == stderr
    ensures m.ExitStatus? ==> m.command == fullCommand && m.returncode == returncode
  {
    if stderr != [] then Text(stderr) else ExitStatus(fullCommand, returncode)
  }

  /** The classification, with `check` the flag that makes a non-zero exit an
      error (every caller leaves it set). A run succeeds exactly when the
      binary exited, with status 0 unless `check` is off, and the completed
      process carries the full command and the output unchanged. Each failure
      maps to exactly one error: a non-zero exit to an `APIError` with that
      exit status (never 0) and a non-empty message, a timeout to a
      `TimeoutError` naming the full command, a missing binary to a
      `ConnectionError` naming the binary. */
  function RunCommand(binary: string, cmd: seq<string>, check: bool, outcome: RunOutcome): (r: Result<Completed>)
    ensures r.Ok? <==> outcome.Exited? && (!check || outcome.returncode == 0)
    ensures r.Ok? ==> r.value == Completed([binary] + cmd, outcome.returncode, outcome.stdout, outcome.stderr)
    ensures r.Err? && r.error.APIError? <==> outcome.Exited? && check && outcome.returncode != 0
    ensures r.Err? && r.error.APIError? ==>
      && r.error.code == outcome.returncode != 0
      && r.error.message == FailureMessage([binary] + cmd, outcome.returncode, outcome.stderr)
      && r.error.message != Text([])
    ensures outcome.TimeoutExpired? <==> r == Err(TimeoutError([binary] + cmd))
    ensures outcome.BinaryNotFound? <==> r == Err(ConnectionError(binary))
  {
    var fullCommand := [binary] + cmd;
    match outcome
    case Exited(code, out, err) =>
      if check && code != 0 then Err(APIError(code, FailureMessage(fullCommand, code, err)))
      else Ok(Completed(fullCommand, code, out, err))
    case TimeoutExpired => Err(TimeoutError(fullCommand))
    case BinaryNotFound => Err(ConnectionError(binary))
  }
}
