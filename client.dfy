/** `PebbleCliClient`: each operation builds the argument vector for the
    `pebble` binary, runs it through `_run_command` and decodes what it
    printed. The operating system is an oracle: `Subprocess` answers every
    launch from a script and records the launches in order. */
module Client {
  import opened Types
  import opened PyStr
  import opened Commands
  import opened Process
  import Runner
  import Services
  import Checks
  import Files
  import Changes
  import Notices
  import Identities
  import Replies

  /** Where a standard stream of a spawned process goes: a new pipe, a
      stream the caller supplied, or (standard error only) the standard
      output. */
  datatype Stdio = Pipe | CallerStream | IntoStdout

  /** Environment variables by name. */
  type Environ = map<string, string>

  /** The position just after the last "/" of `path`, or 0 when it has none. */
  function AfterLastSlash(path: string): (n: nat)
    ensures n <= |path| && '/' !in path[n..]
    ensures n > 0 ==> path[n - 1] == '/'
    decreases |path|
  {
    if path == [] then 0
    else if path[|path| - 1] == '/' then |path|
    else
      var n := AfterLastSlash(path[..|path| - 1]);
      assert path[n..] == path[..|path| - 1][n..] + [path[|path| - 1]];
      n
  }

  /** `str(pathlib.Path(path).parent)` for a path without repeated or
      trailing separators: everything before the last "/", the root "/"
      when that is all there is, and "." when there is no "/". */
  function Parent(path: string): string
  {
    var n := AfterLastSlash(path);
    if n == 0 then "." else if n == 1 then "/" else path[..n - 1]
  }

  /** The parent of `dir/name` is `dir`. */
  lemma ParentOfChild(dir: string, name: string)
    requires dir != [] && dir[|dir| - 1] != '/' && '/' !in name
    ensures Parent(dir + "/" + name) == dir
  {
    var path := dir + "/" + name;
    var n := AfterLastSlash(path);
    assert path[|dir|] == '/';
    forall i | |dir| < i < |path|
      ensures path[i] != '/'
    {
      assert path[i] == name[i - |dir| - 1];
    }
    assert path[|dir|] !in path[n..] ==> n > |dir|;
    assert n == |dir| + 1;
    assert path[..n - 1] == dir;
  }

  /** The parent of a bare name is the current directory, and that of a name
      under the root is the root. */
  lemma ParentOfName(name: string)
    requires '/' !in name
    ensures Parent(name) == "." && Parent("/" + name) == "/"
  {
    forall i | 0 <= i < |name|
      ensures name[i] != '/'
    {
      assert name[i] in name;
    }
    var path := "/" + name;
    var m := AfterLastSlash(path);
    forall i | 0 < i < |path|
      ensures path[i] != '/'
    {
      assert path[i] == name[i - 1];
    }
    assert path[0] == '/';
    assert path[0] !in path[m..] ==> m > 0;
    assert m == 1;
  }

  /** The socket path of the unit test gives the directory "/tmp/test". */
  lemma SocketDirExample()
    ensures Parent("/tmp/test/.pebble.socket") == "/tmp/test"
  {
    ParentOfChild("/tmp/test", ".pebble.socket");
    assert "/tmp/test" + "/" + ".pebble.socket" == "/tmp/test/.pebble.socket";
  }

  /** The client's environment: a copy of `environ`, with `PEBBLE` set to
      the socket's directory when a socket path is given. */
  function ClientEnv(environ: Environ, socketPath: string): (env: Environ)
    ensures socketPath == [] ==> env == environ
    ensures socketPath != [] ==> "PEBBLE" in env && env["PEBBLE"] == Parent(socketPath)
    ensures env.Keys == environ.Keys + (if socketPath == [] then {} else {"PEBBLE"})
    ensures forall k :: k in environ && k != "PEBBLE" ==> env[k] == environ[k]
  {
    if socketPath == [] then environ else environ["PEBBLE" := Parent(socketPath)]
  }

  /** A launch of the binary: `subprocess.run` with the full command and the
      timeout, or `subprocess.Popen` with the full command and its streams. */
  datatype Launch =
    | RunCall(args: seq<string>, timeout: string, env: Environ)
    | PopenCall(args: seq<string>, stdin: Stdio, stdout: Stdio, stderr: Stdio, env: Environ)

  /** What a started process does: its exit status, what it writes to each
      output pipe, and which of the calls made on it time out. */
  datatype Behaviour = Behaviour(returncode: int, stdoutText: string, stderrText: string, expires: nat -> bool)

  /** The `Popen` script of a started process: only a stream wired to a pipe
      can be read back. */
  function ScriptOf(b: Behaviour, stdin: Stdio, stdout: Stdio, stderr: Stdio): Script
  {
    Script(b.returncode, stdin == Pipe,
           if stdout == Pipe then Some(b.stdoutText) else None,
           if stderr == Pipe then Some(b.stderrText) else None,
           b.expires)
  }

  class Subprocess {
    var launches: seq<Launch>
    /** The outcome of the run that is launch number `n`. */
    const outcomes: nat -> Runner.RunOutcome
    /** The process started as launch number `n`; absent when the binary is
        not found. */
    const behaviours: nat -> Option<Behaviour>

    constructor(outcomes: nat -> Runner.RunOutcome, behaviours: nat -> Option<Behaviour>)
      ensures this.outcomes == outcomes && this.behaviours == behaviours && launches == []
    {
      this.outcomes := outcomes;
      this.behaviours := behaviours;
      launches := [];
    }

    function NextOutcome(): Runner.RunOutcome
      reads this
    {
      outcomes(|launches|)
    }

    function NextBehaviour(): Option<Behaviour>
      reads this
    {
      behaviours(|launches|)
    }

    /** `subprocess.run(args, timeout=timeout, env=env, ...)`. */
    method Run(args: seq<string>, timeout: string, env: Environ) returns (outcome: Runner.RunOutcome)
      modifies this
      ensures outcome == old(NextOutcome())
      ensures launches == old(launches) + [RunCall(args, timeout, env)]
    {
      outcome := NextOutcome();
      launches := launches + [RunCall(args, timeout, env)];
    }

    /** `subprocess.Popen(args, stdin=..., stdout=..., stderr=...)`: a new
        process handle, or nothing when the binary is not found. */
    method Spawn(args: seq<string>, stdin: Stdio, stdout: Stdio, stderr: Stdio, env: Environ) returns (p: Option<Popen>)
      modifies this
      ensures launches == old(launches) + [PopenCall(args, stdin, stdout, stderr, env)]
      ensures p.None? <==> old(NextBehaviour()).None?
      ensures p.Some? ==>
        && fresh(p.value) && p.value.args == args && p.value.trace == []
        && p.value.script == ScriptOf(old(NextBehaviour()).value, stdin, stdout, stderr)
    {
      var b := NextBehaviour();
      launches := launches + [PopenCall(args, stdin, stdout, stderr, env)];
      if b.None? {
        return None;
      }
      var process := new Popen(args, ScriptOf(b.value, stdin, stdout, stderr));
      return Some(process);
    }
  }

  /** The error of a failed run, or else the decoding of what the run
      printed. */
  function AfterRun<T>(run: Result<Runner.Completed>, decode: string -> Result<T>): Result<T>
  {
    match run
    case Err(e) => Err(e)
    case Ok(c) => decode(c.stdout)
  }

  /** The name `send_signal` passes on: the name of a signal number (an
      unknown number is a `ValueError`), or a name the `signal` module has
      (a missing one is a `ValueError`). The name is not upper-cased. */
  function SignalNameOf(sig: Signal, signals: SignalModule): (r: Result<string>)
    ensures sig.SignalNumber? ==> (r.Ok? <==> signals.nameOf(sig.number).Some?)
    ensures sig.SignalNumber? && r.Ok? ==> r.value == signals.nameOf(sig.number).value
    ensures sig.SignalName? ==> (r.Ok? <==> !signals.attribute(sig.name).Missing?)
    ensures sig.SignalName? && r.Ok? ==> r.value == sig.name
    ensures r.Err? ==> r.error.ValueError?
  {
    match sig
    case SignalNumber(n) =>
      if signals.nameOf(n).None? then Err(ValueError(InvalidSignalNumber(n))) else Ok(signals.nameOf(n).value)
    case SignalName(name) =>
      if signals.attribute(name).Missing? then Err(ValueError(InvalidSignalName(name))) else Ok(name)
  }

  // The loops that grow the argument vector one entry at a time.

  lemma {:induction false} EnvArgsSnoc(env: seq<(string, string)>, i: nat)
    requires i < |env|
    ensures EnvArgs(env[..i + 1]) == EnvArgs(env[..i]) + ["--env", Assignment(env[i])]
  {
    if i == 0 {
      assert env[..1][1..] == [];
    } else {
      assert env[..i + 1][1..] == env[1..][..i];
      assert env[..i][1..] == env[1..][..i - 1];
      EnvArgsSnoc(env[1..], i - 1);
    }
  }

  lemma {:induction false} AssignmentsSnoc(data: seq<(string, string)>, i: nat)
    requires i < |data|
    ensures Assignments(data[..i + 1]) == Assignments(data[..i]) + [Assignment(data[i])]
  {
    if i == 0 {
      assert data[..1][1..] == [];
    } else {
      assert data[..i + 1][1..] == data[1..][..i];
      assert data[..i][1..] == data[1..][..i - 1];
      AssignmentsSnoc(data[1..], i - 1);
    }
  }

  lemma {:induction false} KeyArgsSnoc(keys: seq<string>, i: nat)
    requires i < |keys|
    ensures KeyArgs(keys[..i + 1]) == KeyArgs(keys[..i]) + ["--key", keys[i]]
  {
    if i == 0 {
      assert keys[..1][1..] == [];
    } else {
      assert keys[..i + 1][1..] == keys[1..][..i];
      assert keys[..i][1..] == keys[1..][..i - 1];
      KeyArgsSnoc(keys[1..], i - 1);
    }
  }

  /** The `--user`/`--uid` and `--group`/`--gid` options appended to `cmd`:
      a non-empty name wins over an id. */
  method AppendOwner(cmd: seq<string>, owner: Owner) returns (out: seq<string>)
    ensures out == cmd + OwnerArgs(owner)
  {
    out := cmd;
    if Given(owner.user) {
      out := out + ["--user", owner.user.value];
    } else if owner.userId.Some? {
      out := out + ["--uid", IntToString(owner.userId.value)];
    }
    var users := out;
    if Given(owner.group) {
      out := out + ["--group", owner.group.value];
    } else if owner.groupId.Some? {
      out := out + ["--gid", IntToString(owner.groupId.value)];
    }
    assert users == cmd + OptionArgs(UserFlag(owner), UserValue(owner));
    assert out == users + OptionArgs(GroupFlag(owner), GroupValue(owner));
  }

  /** The options `make_dir` and `push` append to `cmd`. */
  method AppendFileFlags(cmd: seq<string>, makeParents: bool, permissions: Option<int>, owner: Owner)
    returns (out: seq<string>)
    ensures out == cmd + FileFlags(makeParents, permissions, owner)
  {
    out := cmd;
    if makeParents {
      out := out + ["-p"];
    }
    var parents := out;
    if permissions.Some? {
      out := out + ["-m", Oct(permissions.value)];
    }
    var mode := out;
    out := AppendOwner(out, owner);
    var p: seq<string> := if makeParents then ["-p"] else [];
    var m := OptionArgs("-m", if permissions.Some? then Some(Oct(permissions.value)) else None);
    var o := OwnerArgs(owner);
    assert parents == cmd + p;
    assert mode == parents + m;
    Assoc(cmd + p, m, o);
    Assoc(cmd, p, m + o);
    Assoc(p, m, o);
  }

  /** The `notices` vector: the user filter, every type as an operand,
      then one `--key` option per key. */
  method NoticesCommand(users: Option<string>, userId: Option<int>, types: seq<string>, keys: seq<string>)
    returns (cmd: seq<string>)
    ensures cmd == NoticesArgs(users, userId, types, keys)
  {
    cmd := ["notices", "--abs-time"];
    if Given(users) {
      cmd := cmd + ["--users", users.value];
    }
    if userId.Some? {
      cmd := cmd + ["--uid", IntToString(userId.value)];
    }
    var head := cmd;
    var i := 0;
    while i < |types|
      invariant 0 <= i <= |types|
      invariant cmd == head + types[..i]
    {
      assert types[..i + 1] == types[..i] + [types[i]];
      Assoc(head, types[..i], [types[i]]);
      cmd := cmd + [types[i]];
      i := i + 1;
    }
    assert types[..i] == types;
    head := cmd;
    i := 0;
    while i < |keys|
      invariant 0 <= i <= |keys|
      invariant cmd == head + KeyArgs(keys[..i])
    {
      KeyArgsSnoc(keys, i);
      Assoc(head, KeyArgs(keys[..i]), ["--key", keys[i]]);
      cmd := cmd + ["--key", keys[i]];
      i := i + 1;
    }
    assert keys[..i] == keys;
  }

  /** The `notify` vector, built as `notify` builds it: the optional
      repeat interval, the key, then one `name=value` per data entry. */
  method NotifyCommand(key: string, data: seq<(string, string)>, repeatAfter: Option<string>) returns (cmd: seq<string>)
    ensures cmd == NotifyArgs(key, data, repeatAfter)
  {
    cmd := ["notify"];
    if repeatAfter.Some? {
      cmd := cmd + ["--repeat-after", repeatAfter.value];
    }
    cmd := cmd + [key];
    var head := cmd;
    var i := 0;
    while i < |data|
      invariant 0 <= i <= |data|
      invariant cmd == head + Assignments(data[..i])
    {
      AssignmentsSnoc(data, i);
      Assoc(head, Assignments(data[..i]), [Assignment(data[i])]);
      cmd := cmd + [Assignment(data[i])];
      i := i + 1;
    }
    assert data[..i] == data;
  }

  /** The `pebble exec` vector, grown option by option. */
  method ExecCommand(o: ExecOptions) returns (cmd: seq<string>)
    ensures cmd == ExecArgs(o)
  {
    cmd := ["exec"];
    if Given(o.serviceContext) {
      cmd := cmd + ["--context", o.serviceContext.value];
    }
    assert cmd == ["exec"] + OptionArgs("--context", IfGiven(o.serviceContext));
    var context := cmd;
    if Given(o.workingDir) {
      cmd := cmd + ["-w", o.workingDir.value];
    }
    assert cmd == context + OptionArgs("-w", IfGiven(o.workingDir));
    var dir := cmd;
    if TimeoutSet(o.timeout) {
      cmd := cmd + ["--timeout", o.timeout.value + "s"];
    }
    assert cmd == dir + OptionArgs("--timeout", TimeoutText(o.timeout));
    cmd := AppendOwner(cmd, o.owner);
    var head := cmd;
    var i := 0;
    while i < |o.environment|
      invariant 0 <= i <= |o.environment|
      invariant cmd == head + EnvArgs(o.environment[..i])
    {
      EnvArgsSnoc(o.environment, i);
      Assoc(head, EnvArgs(o.environment[..i]), ["--env", Assignment(o.environment[i])]);
      cmd := cmd + ["--env", Assignment(o.environment[i])];
      i := i + 1;
    }
    assert o.environment[..i] == o.environment;
    cmd := cmd + ["--"] + o.command;
  }

  class PebbleCliClient {
    /** The text of the default timeout in seconds. */
    const timeout: string
    const binary: string
    /** The environment every launch gets. */
    const env: Environ
    const subprocess: Subprocess
    const host: Files.Host
    const signals: SignalModule

    /** `environ` is the process environment `os.environ` holds when the
        client is made; a non-empty `socketPath` points `PEBBLE` at the
        socket's directory. */
    constructor(socketPath: string, timeout: string, binary: string, environ: Environ,
                subprocess: Subprocess, host: Files.Host, signals: SignalModule)
      ensures this.timeout == timeout && this.binary == binary && this.subprocess == subprocess
      ensures this.host == host && this.signals == signals
      ensures env == ClientEnv(environ, socketPath)
    {
      this.timeout := timeout;
      this.binary := binary;
      env := ClientEnv(environ, socketPath);
      this.subprocess := subprocess;
      this.host := host;
      this.signals := signals;
    }

    /** What running `cmd` next would give. */
    function NextRun(cmd: seq<string>): Result<Runner.Completed>
      reads subprocess
    {
      Runner.RunCommand(binary, cmd, true, subprocess.NextOutcome())
    }

    /** `_run_command(cmd)`: the binary is run once with the client's
        timeout and the outcome classified by `Runner.RunCommand`. */
    method RunCommand(cmd: seq<string>) returns (r: Result<Runner.Completed>)
      modifies subprocess
      ensures subprocess.launches == old(subprocess.launches) + [RunCall([binary] + cmd, timeout, env)]
      ensures r == old(NextRun(cmd))
    {
      var outcome := subprocess.Run([binary] + cmd, timeout, env);
      r := Runner.RunCommand(binary, cmd, true, outcome);
    }

    /** `get_system_info`: the version is the first line of the output. */
    method GetSystemInfo() returns (r: Result<string>)
      modifies subprocess
      ensures subprocess.launches == old(subprocess.launches) + [RunCall([binary] + ["version", "--client"], timeout, env)]
      ensures var run := old(NextRun(["version", "--client"]));
        r == AfterRun(run, out => Ok(Replies.SystemVersionOf(out)))
    {
      var result := RunCommand(["version", "--client"]);
      if result.Err? {
        return Err(result.error);
      }
      return Ok(Replies.SystemVersionOf(result.value.stdout));
    }

    /** `get_services(names)`. */
    method GetServices(names: seq<string>) returns (r: Result<seq<ServiceInfo>>)
      modifies subprocess
      ensures subprocess.launches == old(subprocess.launches) + [RunCall([binary] + ["services", "--abs-time"], timeout, env)]
      ensures var run := old(NextRun(["services", "--abs-time"]));
        r == AfterRun(run, out => Services.ServicesOf(out, names))
    {
      var result := RunCommand(["services", "--abs-time"]);
      if result.Err? {
        return Err(result.error);
      }
      r := Services.ParseServices(result.value.stdout, names);
    }

    /** The common body of `start_services`, `stop_services` and
        `restart_services`: an empty list is refused before anything runs;
        otherwise the verb and the names are run, with `--no-wait` when the
        timeout is 0, and the change ID is the stripped output in that case
        and "?" otherwise. */
    method ChangeServices(verb: string, names: seq<string>, noWait: bool) returns (r: Result<string>)
      modifies subprocess
      ensures names == [] ==> r == Err(ValueError(EmptyList("services"))) && subprocess.launches == old(subprocess.launches)
      ensures names != [] ==>
        && subprocess.launches == old(subprocess.launches) + [RunCall([binary] + ServiceArgs(verb, names, noWait), timeout, env)]
        && var run := old(NextRun(ServiceArgs(verb, names, noWait)));
           r == AfterRun(run, out => Ok(if noWait then Strip(out) else "?"))
    {
      if names == [] {
        return Err(ValueError(EmptyList("services")));
      }
      var cmd := [verb] + names;
      if noWait {
        cmd := cmd + ["--no-wait"];
      }
      assert cmd == ServiceArgs(verb, names, noWait);
      var result := RunCommand(cmd);
      if result.Err? {
        return Err(result.error);
      }
      if noWait {
        return Ok(Strip(result.value.stdout));
      }
      return Ok("?");
    }

    method StartServices(names: seq<string>, noWait: bool) returns (r: Result<string>)
      modifies subprocess
      ensures names == [] ==> r == Err(ValueError(EmptyList("services"))) && subprocess.launches == old(subprocess.launches)
      ensures names != [] ==>
        && subprocess.launches == old(subprocess.launches) + [RunCall([binary] + ServiceArgs("start", names, noWait), timeout, env)]
        && var run := old(NextRun(ServiceArgs("start", names, noWait)));
           r == AfterRun(run, out => Ok(if noWait then Strip(out) else "?"))
    {
      r := ChangeServices("start", names, noWait);
    }

    method StopServices(names: seq<string>, noWait: bool) returns (r: Result<string>)
      modifies subprocess
      ensures names == [] ==> r == Err(ValueError(EmptyList("services"))) && subprocess.launches == old(subprocess.launches)
      ensures names != [] ==>
        && subprocess.launches == old(subprocess.launches) + [RunCall([binary] + ServiceArgs("stop", names, noWait), timeout, env)]
        && var run := old(NextRun(ServiceArgs("stop", names, noWait)));
           r == AfterRun(run, out => Ok(if noWait then Strip(out) else "?"))
    {
      r := ChangeServices("stop", names, noWait);
    }

    method RestartServices(names: seq<string>, noWait: bool) returns (r: Result<string>)
      modifies subprocess
      ensures names == [] ==> r == Err(ValueError(EmptyList("services"))) && subprocess.launches == old(subprocess.launches)
      ensures names != [] ==>
        && subprocess.launches == old(subprocess.launches) + [RunCall([binary] + ServiceArgs("restart", names, noWait), timeout, env)]
        && var run := old(NextRun(ServiceArgs("restart", names, noWait)));
           r == AfterRun(run, out => Ok(if noWait then Strip(out) else "?"))
    {
      r := ChangeServices("restart", names, noWait);
    }

    /** `send_signal(sig, services)`: the empty list is refused first, then
        the signal's name is resolved; neither failure runs anything. */
    method SendSignal(sig: Signal, names: seq<string>) returns (r: Result<()>)
      modifies subprocess
      ensures names == [] ==> r == Err(ValueError(EmptyList("services"))) && subprocess.launches == old(subprocess.launches)
      ensures names != [] && SignalNameOf(sig, signals).Err? ==>
        r == Err(SignalNameOf(sig, signals).error) && subprocess.launches == old(subprocess.launches)
      ensures names != [] && SignalNameOf(sig, signals).Ok? ==>
        && var args := SignalArgs(SignalNameOf(sig, signals).value, names);
        && subprocess.launches == old(subprocess.launches) + [RunCall([binary] + args, timeout, env)]
        && r == AfterRun(old(NextRun(args)), _ => Ok(()))
    {
      if names == [] {
        return Err(ValueError(EmptyList("services")));
      }
      var name: string;
      match sig {
        case SignalNumber(n) =>
          if signals.nameOf(n).None? {
            return Err(ValueError(InvalidSignalNumber(n)));
          }
          name := signals.nameOf(n).value;
        case SignalName(s) =>
          if signals.attribute(s).Missing? {
            return Err(ValueError(InvalidSignalName(s)));
          }
          name := s;
      }
      var cmd := ["signal", Slice(name, 3, |name|)] + names;
      var result := RunCommand(cmd);
      if result.Err? {
        return Err(result.error);
      }
      return Ok(());
    }

    /** `get_checks(level, names)`: `--level` is passed when a level is
        given. */
    method GetChecks(level: Option<string>, names: seq<string>) returns (r: Result<seq<CheckInfo>>)
      modifies subprocess
      ensures subprocess.launches == old(subprocess.launches) + [RunCall([binary] + (["checks"] + OptionArgs("--level", level)), timeout, env)]
      ensures var run := old(NextRun(["checks"] + OptionArgs("--level", level)));
        r == AfterRun(run, out => Ok(Checks.ChecksOf(out, names)))
    {
      var cmd := ["checks"];
      if level.Some? {
        cmd := cmd + ["--level", level.value];
      }
      assert cmd == ["checks"] + OptionArgs("--level", level);
      var result := RunCommand(cmd);
      if result.Err? {
        return Err(result.error);
      }
      var checks := Checks.ParseChecks(result.value.stdout, names);
      return Ok(checks);
    }

    /** The common body of `start_checks` and `stop_checks`: an empty list is
        refused before anything runs; otherwise the names are returned as
        given once the command succeeds. */
    method ChangeChecks(verb: string, names: seq<string>) returns (r: Result<seq<string>>)
      modifies subprocess
      ensures names == [] ==> r == Err(ValueError(EmptyList("checks"))) && subprocess.launches == old(subprocess.launches)
      ensures names != [] ==>
        && subprocess.launches == old(subprocess.launches) + [RunCall([binary] + ([verb] + names), timeout, env)]
        && r == AfterRun(old(NextRun([verb] + names)), _ => Ok(names))
    {
      if names == [] {
        return Err(ValueError(EmptyList("checks")));
      }
      var result := RunCommand([verb] + names);
      if result.Err? {
        return Err(result.error);
      }
      return Ok(names);
    }

    method StartChecks(names: seq<string>) returns (r: Result<seq<string>>)
      modifies subprocess
      ensures names == [] ==> r == Err(ValueError(EmptyList("checks"))) && subprocess.launches == old(subprocess.launches)
      ensures names != [] ==>
        && subprocess.launches == old(subprocess.launches) + [RunCall([binary] + (["start-checks"] + names), timeout, env)]
        && r == AfterRun(old(NextRun(["start-checks"] + names)), _ => Ok(names))
    {
      r := ChangeChecks("start-checks", names);
    }

    method StopChecks(names: seq<string>) returns (r: Result<seq<string>>)
      modifies subprocess
      ensures names == [] ==> r == Err(ValueError(EmptyList("checks"))) && subprocess.launches == old(subprocess.launches)
      ensures names != [] ==>
        && subprocess.launches == old(subprocess.launches) + [RunCall([binary] + (["stop-checks"] + names), timeout, env)]
        && r == AfterRun(old(NextRun(["stop-checks"] + names)), _ => Ok(names))
    {
      r := ChangeChecks("stop-checks", names);
    }

    /** `list_files(path, pattern, itself)`, decoding the listing with the
        source's split limit, `split(None, 6)`. */
    method ListFiles(path: string, pattern: Option<string>, itself: bool) returns (r: Result<seq<FileInfo>>)
      modifies subprocess
      ensures var args := ["ls", "--abs-time", "-l", path] + (if itself then ["-d"] else []);
        && subprocess.launches == old(subprocess.launches) + [RunCall([binary] + args, timeout, env)]
        && var run := old(NextRun(args));
           r == AfterRun(run, out => Files.FilesOf(out, path, pattern, host, Files.WrittenMaxSplit))
    {
      var cmd := ["ls", "--abs-time", "-l", path];
      if itself {
        cmd := cmd + ["-d"];
      }
      assert cmd == ["ls", "--abs-time", "-l", path] + (if itself then ["-d"] else []);
      var result := RunCommand(cmd);
      if result.Err? {
        return Err(result.error);
      }
      r := Files.ParseFiles(result.value.stdout, path, pattern, host, Files.WrittenMaxSplit);
    }

    /** `make_dir(path, ...)`. */
    method MakeDir(path: string, makeParents: bool, permissions: Option<int>, owner: Owner) returns (r: Result<()>)
      modifies subprocess
      ensures subprocess.launches == old(subprocess.launches) + [RunCall([binary] + MakeDirArgs(path, makeParents, permissions, owner), timeout, env)]
      ensures r == AfterRun(old(NextRun(MakeDirArgs(path, makeParents, permissions, owner))), _ => Ok(()))
    {
      var cmd := AppendFileFlags(["mkdir", path], makeParents, permissions, owner);
      var result := RunCommand(cmd);
      if result.Err? {
        return Err(result.error);
      }
      return Ok(());
    }

    /** `push(path, source, ...)`: the content is written to the temporary
        file `tempName`, whose name is inserted after the verb. */
    method Push(path: string, tempName: string, makeDirs: bool, permissions: Option<int>, owner: Owner) returns (r: Result<()>)
      modifies subprocess
      ensures subprocess.launches == old(subprocess.launches) + [RunCall([binary] + PushArgs(path, tempName, makeDirs, permissions, owner), timeout, env)]
      ensures r == AfterRun(old(NextRun(PushArgs(path, tempName, makeDirs, permissions, owner))), _ => Ok(()))
    {
      var cmd := AppendFileFlags(["push", path], makeDirs, permissions, owner);
      cmd := cmd[..1] + [tempName] + cmd[1..];
      assert cmd == ["push", tempName, path] + FileFlags(makeDirs, permissions, owner);
      var result := RunCommand(cmd);
      if result.Err? {
        return Err(result.error);
      }
      return Ok(());
    }

    /** `exec(command, ...)`: the options become the `pebble exec` vector,
        the process is started with its streams wired as asked (standard
        input always a pipe; a stream the caller supplies is used as is;
        with `combineStderr` and no stream of its own, standard error goes
        to standard output), and the handle wraps it. A missing binary is a
        `ConnectionError`. */
    method Exec(o: ExecOptions, stdin: Option<string>, stdoutStream: bool, stderrStream: bool, combineStderr: bool)
      returns (r: Result<ExecProcess>)
      modifies subprocess
      ensures var err := if stderrStream then CallerStream else if combineStderr then IntoStdout else Pipe;
        var out := if stdoutStream then CallerStream else Pipe;
        && subprocess.launches == old(subprocess.launches) + [PopenCall([binary] + ExecArgs(o), Pipe, out, err, env)]
        && (r.Err? <==> old(subprocess.NextBehaviour()).None?)
        && (r.Err? ==> r.error == ConnectionError(binary))
        && (r.Ok? ==>
             && fresh(r.value) && fresh(r.value.process)
             && r.value.command == o.command && r.value.timeout == o.timeout
             && r.value.stdinContent == stdin && r.value.combineStderr == combineStderr
             && r.value.process.args == [binary] + ExecArgs(o) && r.value.process.trace == []
             && r.value.process.script == ScriptOf(old(subprocess.NextBehaviour()).value, Pipe, out, err)
             && r.value.stdin && r.value.stdout == r.value.process.script.stdoutPipe
             && r.value.stderr == (if combineStderr then None else r.value.process.script.stderrPipe)
             && !r.value.finished && r.value.Valid())
    {
      var cmd := ExecCommand(o);
      // Standard input is a pipe: content to send exists exactly when a stdin
      // argument was given, and without one the pipe is simply left empty.
      var processStdin := Pipe;
      var processStdout := if !stdoutStream then Pipe else CallerStream;
      var processStderr := if stderrStream then CallerStream else if combineStderr then IntoStdout else Pipe;
      var process := subprocess.Spawn([binary] + cmd, processStdin, processStdout, processStderr, env);
      if process.None? {
        return Err(ConnectionError(binary));
      }
      var handle := new ExecProcess(o.command, process.value, stdin, combineStderr, o.timeout);
      return Ok(handle);
    }

    /** `get_changes(select)`: `--select` is passed when a state is given. */
    method GetChanges(select: Option<string>) returns (r: Result<seq<Change>>)
      modifies subprocess
      ensures var args := ["changes", "--abs-time"] + OptionArgs("--select", select);
        && subprocess.launches == old(subprocess.launches) + [RunCall([binary] + args, timeout, env)]
        && var run := old(NextRun(args));
           r == AfterRun(run, out => Changes.ChangesOf(out, host.isIso))
    {
      var cmd := ["changes", "--abs-time"];
      if select.Some? {
        cmd := cmd + ["--select", select.value];
      }
      assert cmd == ["changes", "--abs-time"] + OptionArgs("--select", select);
      var result := RunCommand(cmd);
      if result.Err? {
        return Err(result.error);
      }
      r := Changes.ParseChanges(result.value.stdout, host.isIso);
    }

    /** `get_notices(users, user_id, types, keys)`. */
    method GetNotices(users: Option<string>, userId: Option<int>, types: seq<string>, keys: seq<string>)
      returns (r: Result<seq<Notice>>)
      modifies subprocess
      ensures var args := NoticesArgs(users, userId, types, keys);
        && subprocess.launches == old(subprocess.launches) + [RunCall([binary] + args, timeout, env)]
        && var run := old(NextRun(args));
           r == AfterRun(run, out => Notices.NoticesOf(out))
    {
      var cmd := NoticesCommand(users, userId, types, keys);
      var result := RunCommand(cmd);
      if result.Err? {
        return Err(result.error);
      }
      r := Notices.ParseNotices(result.value.stdout);
    }

    /** `notify(type, key, data, repeat_after)`: only custom notices are
        accepted, before anything runs; the notice ID is the last word of the
        output. */
    method Notify(noticeType: string, key: string, data: seq<(string, string)>, repeatAfter: Option<string>)
      returns (r: Result<string>)
      modifies subprocess
      ensures noticeType != "custom" ==> r == Err(AssertionError) && subprocess.launches == old(subprocess.launches)
      ensures noticeType == "custom" ==>
        && var args := NotifyArgs(key, data, repeatAfter);
        && subprocess.launches == old(subprocess.launches) + [RunCall([binary] + args, timeout, env)]
        && var run := old(NextRun(args));
           r == AfterRun(run, out => Replies.NoticeIdOf(out))
    {
      if noticeType != "custom" {
        return Err(AssertionError);
      }
      var cmd := NotifyCommand(key, data, repeatAfter);
      var result := RunCommand(cmd);
      if result.Err? {
        return Err(result.error);
      }
      return Replies.NoticeIdOf(result.value.stdout);
    }

    /** `get_identities()`. */
    method GetIdentities() returns (r: Result<map<string, Identity>>)
      modifies subprocess
      ensures subprocess.launches == old(subprocess.launches) + [RunCall([binary] + ["identities"], timeout, env)]
      ensures var run := old(NextRun(["identities"]));
        r == AfterRun(run, out => Identities.IdentitiesOf(out))
    {
      var result := RunCommand(["identities"]);
      if result.Err? {
        return Err(result.error);
      }
      r := Identities.ParseIdentities(result.value.stdout);
    }
  }
}
