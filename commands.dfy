/** The argument vectors the client hands to the `pebble` binary, and how a
    generic option reader (`ReadArgs`, defined here) reads them back. The
    vectors are specified here as functions; the client's methods build them
    step by step. */
module Commands {
  import opened Types
  import opened PyStr

  /** An optional string that is kept only when it is truthy. */
  function IfGiven(s: Option<string>): (r: Option<string>)
    ensures r.Some? <==> Given(s)
    ensures r.Some? ==> r == s
  {
    if Given(s) then s else None
  }

  /** `[flag, value]` when there is a value, nothing otherwise. */
  function OptionArgs(flag: string, value: Option<string>): seq<string>
  {
    if value.Some? then [flag, value.value] else []
  }

  function IntText(n: Option<int>): Option<string>
  {
    if n.Some? then Some(IntToString(n.value)) else None
  }

  // ---------------------------------------------------------------------------
  // Ownership flags shared by `make_dir`, `push` and `exec`

  /** The requested owner: a user (group) name takes precedence over a user
      (group) id, and an empty name counts as absent. */
  datatype Owner = Owner(user: Option<string>, userId: Option<int>, group: Option<string>, groupId: Option<int>)

  function UserFlag(o: Owner): string { if Given(o.user) then "--user" else "--uid" }
  function UserValue(o: Owner): Option<string> { if Given(o.user) then o.user else IntText(o.userId) }
  function GroupFlag(o: Owner): string { if Given(o.group) then "--group" else "--gid" }
  function GroupValue(o: Owner): Option<string> { if Given(o.group) then o.group else IntText(o.groupId) }

  function OwnerArgs(o: Owner): seq<string>
  {
    OptionArgs(UserFlag(o), UserValue(o)) + OptionArgs(GroupFlag(o), GroupValue(o))
  }

  // ---------------------------------------------------------------------------
  // The argument vectors (without the binary)

  /** `start`, `stop` and `restart` of services. */
  function ServiceArgs(verb: string, names: seq<string>, noWait: bool): seq<string>
  {
    [verb] + names + (if noWait then ["--no-wait"] else [])
  }

  /** `signal`: the signal's name without its "SIG" prefix, then the services. */
  function SignalArgs(signalName: string, names: seq<string>): seq<string>
  {
    ["signal", Slice(signalName, 3, |signalName|)] + names
  }

  /** The options `make_dir` and `push` have in common. */
  function FileFlags(makeParents: bool, permissions: Option<int>, owner: Owner): seq<string>
  {
    (if makeParents then ["-p"] else [])
    + OptionArgs("-m", if permissions.Some? then Some(Oct(permissions.value)) else None)
    + OwnerArgs(owner)
  }

  function MakeDirArgs(path: string, makeParents: bool, permissions: Option<int>, owner: Owner): seq<string>
  {
    ["mkdir", path] + FileFlags(makeParents, permissions, owner)
  }

  /** `push` names the temporary file holding the content before the path. */
  function PushArgs(path: string, tempName: string, makeDirs: bool, permissions: Option<int>, owner: Owner): seq<string>
  {
    ["push", tempName, path] + FileFlags(makeDirs, permissions, owner)
  }

  /** The options of `exec`. `timeout` is the timeout in seconds as `str()`
      renders the number, zero included; the environment keeps the
      dictionary's order. */
  datatype ExecOptions = ExecOptions(
    command: seq<string>, serviceContext: Option<string>,
    environment: seq<(string, string)>, workingDir: Option<string>,
    timeout: Option<string>, owner: Owner)

  function Assignment(entry: (string, string)): string
  {
    entry.0 + "=" + entry.1
  }

  function EnvArgs(env: seq<(string, string)>): (r: seq<string>)
    ensures |r| == 2 * |env|
  {
    if env == [] then [] else ["--env", Assignment(env[0])] + EnvArgs(env[1..])
  }

  /** `if timeout:` on the number `timeout` renders as: zero (`0`, `0.0`,
      `-0.0`) is falsy. */
  predicate TimeoutSet(timeout: Option<string>)
  {
    timeout.Some? && timeout.value !in {"0", "0.0", "-0.0"}
  }

  function TimeoutText(timeout: Option<string>): Option<string>
  {
    if TimeoutSet(timeout) then Some(timeout.value + "s") else None
  }

  function ExecArgs(o: ExecOptions): seq<string>
  {
    ["exec"]
    + OptionArgs("--context", IfGiven(o.serviceContext))
    + OptionArgs("-w", IfGiven(o.workingDir))
    + OptionArgs("--timeout", TimeoutText(o.timeout))
    + OwnerArgs(o.owner)
    + EnvArgs(o.environment)
    + ["--"] + o.command
  }

  /** The entries of a dictionary as `name=value` texts, in order: the data
      operands of `notify` and the values of `exec`'s `--env` options. */
  function Assignments(entries: seq<(string, string)>): (r: seq<string>)
    ensures |r| == |entries|
    ensures forall i :: 0 <= i < |entries| ==> r[i] == Assignment(entries[i])
  {
    if entries == [] then [] else [Assignment(entries[0])] + Assignments(entries[1..])
  }

  /** `notify`: `repeatAfter` is the text of a non-zero repeat interval. */
  function NotifyArgs(key: string, data: seq<(string, string)>, repeatAfter: Option<string>): seq<string>
  {
    ["notify"] + OptionArgs("--repeat-after", repeatAfter) + [key] + Assignments(data)
  }

  function KeyArgs(keys: seq<string>): (r: seq<string>)
    ensures |r| == 2 * |keys|
  {
    if keys == [] then [] else ["--key", keys[0]] + KeyArgs(keys[1..])
  }

  /** `notices`: the types are passed as bare operands. */
  function NoticesArgs(users: Option<string>, userId: Option<int>, types: seq<string>, keys: seq<string>): seq<string>
  {
    ["notices", "--abs-time"]
    + OptionArgs("--users", IfGiven(users))
    + OptionArgs("--uid", IntText(userId))
    + types + KeyArgs(keys)
  }

  // ---------------------------------------------------------------------------
  // Reading a vector back with a generic option reader, given which flags
  // are switches and which take a value: a switch stands alone, a valued
  // option takes the next argument whatever it is, "--" ends the options,
  // and anything else is an operand. pebble's own parser is not modelled.

  datatype Parsed = Parsed(options: seq<(string, string)>, switches: seq<string>, operands: seq<string>)

  function ReadArgs(args: seq<string>, switches: set<string>, valued: set<string>): Option<Parsed>
  {
    if args == [] then Some(Parsed([], [], []))
    else if args[0] == "--" then Some(Parsed([], [], args[1..]))
    else if args[0] in switches then
      match ReadArgs(args[1..], switches, valued)
      case None => None
      case Some(p) => Some(p.(switches := [args[0]] + p.switches))
    else if args[0] in valued then
      if |args| < 2 then None
      else WithOption(args[0], Some(args[1]), ReadArgs(args[2..], switches, valued))
    else
      match ReadArgs(args[1..], switches, valued)
      case None => None
      case Some(p) => Some(p.(operands := [args[0]] + p.operands))
  }

  function WithOption(flag: string, value: Option<string>, p: Option<Parsed>): Option<Parsed>
  {
    if value.None? || p.None? then p
    else Some(p.value.(options := [(flag, value.value)] + p.value.options))
  }

  /** The values given to option `flag`, in order. */
  function Values(options: seq<(string, string)>, flag: string): seq<string>
  {
    if options == [] then []
    else (if options[0].0 == flag then [options[0].1] else []) + Values(options[1..], flag)
  }

  /** The value an optional flag contributes when looked up as `flag`. */
  function Expected(given: string, value: Option<string>, flag: string): seq<string>
  {
    if given == flag && value.Some? then [value.value] else []
  }

  lemma {:induction false} ValuesAppend(a: seq<(string, string)>, b: seq<(string, string)>, flag: string)
    ensures Values(a + b, flag) == Values(a, flag) + Values(b, flag)
  {
    if a == [] {
      assert a + b == b;
    } else {
      var head := if a[0].0 == flag then [a[0].1] else [];
      assert (a + b)[0] == a[0] && (a + b)[1..] == a[1..] + b;
      assert Values(a + b, flag) == head + Values(a[1..] + b, flag);
      ValuesAppend(a[1..], b, flag);
      SeqAssoc(head, Values(a[1..], flag), Values(b, flag));
    }
  }

  lemma ReadOption(flag: string, value: Option<string>, rest: seq<string>, switches: set<string>, valued: set<string>)
    requires flag in valued && flag !in switches && flag != "--"
    ensures ReadArgs(OptionArgs(flag, value) + rest, switches, valued)
         == WithOption(flag, value, ReadArgs(rest, switches, valued))
  {
    if value.Some? {
      var args := OptionArgs(flag, value) + rest;
      assert args[0] == flag && args[1] == value.value && args[2..] == rest;
    } else {
      assert OptionArgs(flag, value) + rest == rest;
    }
  }

  lemma {:induction false} ReadOperands(xs: seq<string>, rest: seq<string>, switches: set<string>, valued: set<string>)
    requires forall x :: x in xs ==> x !in switches && x !in valued && x != "--"
    requires ReadArgs(rest, switches, valued).Some?
    ensures var p := ReadArgs(rest, switches, valued).value;
      ReadArgs(xs + rest, switches, valued) == Some(p.(operands := xs + p.operands))
  {
    var p := ReadArgs(rest, switches, valued).value;
    if xs == [] {
      assert xs + rest == rest;
      assert p.(operands := xs + p.operands) == p;
    } else {
      var args := xs + rest;
      var q := p.(operands := xs[1..] + p.operands);
      assert ReadArgs(args[1..], switches, valued) == Some(q) by {
        assert args[1..] == xs[1..] + rest;
        ReadOperands(xs[1..], rest, switches, valued);
      }
      assert xs[0] in xs && args[0] == xs[0];
      assert [xs[0]] + (xs[1..] + p.operands) == xs + p.operands;
    }
  }

  function Pairs(flag: string, values: seq<string>): (r: seq<(string, string)>)
    ensures |r| == |values|
  {
    if values == [] then [] else [(flag, values[0])] + Pairs(flag, values[1..])
  }

  lemma {:induction false} ValuesOfPairs(flag: string, values: seq<string>, other: string)
    ensures Values(Pairs(flag, values), other) == if flag == other then values else []
  {
    if values != [] {
      ValuesOfPairs(flag, values[1..], other);
    }
  }

  /** Repeated `flag value` pairs read back as that many options. */
  lemma {:induction false} ReadRepeated(flag: string, values: seq<string>, rest: seq<string>, switches: set<string>, valued: set<string>)
    requires flag in valued && flag !in switches && flag != "--"
    requires ReadArgs(rest, switches, valued).Some?
    ensures var p := ReadArgs(rest, switches, valued).value;
      ReadArgs(RepeatArgs(flag, values) + rest, switches, valued)
        == Some(p.(options := Pairs(flag, values) + p.options))
  {
    var p := ReadArgs(rest, switches, valued).value;
    if values == [] {
      assert RepeatArgs(flag, values) + rest == rest;
      assert p.(options := Pairs(flag, values) + p.options) == p;
    } else {
      var args := RepeatArgs(flag, values) + rest;
      assert args[0] == flag && args[1] == values[0];
      assert args[2..] == RepeatArgs(flag, values[1..]) + rest;
      ReadRepeated(flag, values[1..], rest, switches, valued);
      assert [(flag, values[0])] + (Pairs(flag, values[1..]) + p.options) == Pairs(flag, values) + p.options;
    }
  }

  function RepeatArgs(flag: string, values: seq<string>): (r: seq<string>)
    ensures |r| == 2 * |values|
  {
    if values == [] then [] else [flag, values[0]] + RepeatArgs(flag, values[1..])
  }

  lemma {:induction false} EnvArgsRepeat(env: seq<(string, string)>)
    ensures EnvArgs(env) == RepeatArgs("--env", Assignments(env))
  {
    if env != [] {
      EnvArgsRepeat(env[1..]);
    }
  }

  lemma {:induction false} KeyArgsRepeat(keys: seq<string>)
    ensures KeyArgs(keys) == RepeatArgs("--key", keys)
  {
    if keys != [] {
      KeyArgsRepeat(keys[1..]);
    }
  }

  // ---------------------------------------------------------------------------
  // What each vector means to the option parser

  /** How the owner flags read: a name wins over an id, an empty name does
      not count, and an id is written in decimal. */
  predicate OwnerRead(options: seq<(string, string)>, o: Owner)
  {
    && Values(options, "--user") == (if Given(o.user) then [o.user.value] else [])
    && Values(options, "--uid") == (if !Given(o.user) && o.userId.Some? then [IntToString(o.userId.value)] else [])
    && Values(options, "--group") == (if Given(o.group) then [o.group.value] else [])
    && Values(options, "--gid") == (if !Given(o.group) && o.groupId.Some? then [IntToString(o.groupId.value)] else [])
  }

  const OwnerFlags: set<string> := {"--user", "--uid", "--group", "--gid"}

  function OwnerOptions(o: Owner): seq<(string, string)>
  {
    (if UserValue(o).Some? then [(UserFlag(o), UserValue(o).value)] else [])
    + (if GroupValue(o).Some? then [(GroupFlag(o), GroupValue(o).value)] else [])
  }

  lemma OwnerOptionsRead(o: Owner, flag: string)
    ensures Values(OwnerOptions(o), flag) == Expected(UserFlag(o), UserValue(o), flag) + Expected(GroupFlag(o), GroupValue(o), flag)
  {
    var a := if UserValue(o).Some? then [(UserFlag(o), UserValue(o).value)] else [];
    var b := if GroupValue(o).Some? then [(GroupFlag(o), GroupValue(o).value)] else [];
    ValuesAppend(a, b, flag);
    assert Values(a, flag) == Expected(UserFlag(o), UserValue(o), flag);
    assert Values(b, flag) == Expected(GroupFlag(o), GroupValue(o), flag);
  }

  /** The owner options read as the owner they were built from. */
  lemma OwnerOptionsOwnerRead(o: Owner)
    ensures OwnerRead(OwnerOptions(o), o)
  {
    FlagsDistinct();
    OwnerOptionsRead(o, "--user");
    OwnerOptionsRead(o, "--uid");
    OwnerOptionsRead(o, "--group");
    OwnerOptionsRead(o, "--gid");
  }

  /** An option that is not an owner flag does not change how the owner reads,
      whether it comes before or after. */
  lemma OwnerReadBefore(flag: string, value: Option<string>, options: seq<(string, string)>, o: Owner)
    requires flag !in OwnerFlags && OwnerRead(options, o)
    ensures OwnerRead(OptionPairs(flag, value) + options, o)
  {
    var a := OptionPairs(flag, value);
    ValuesAppend(a, options, "--user");
    ValuesAppend(a, options, "--uid");
    ValuesAppend(a, options, "--group");
    ValuesAppend(a, options, "--gid");
  }

  lemma OwnerReadAfter(options: seq<(string, string)>, rest: seq<(string, string)>, o: Owner)
    requires OwnerRead(options, o)
    requires Values(rest, "--user") == [] && Values(rest, "--uid") == []
    requires Values(rest, "--group") == [] && Values(rest, "--gid") == []
    ensures OwnerRead(options + rest, o)
  {
    ValuesAppend(options, rest, "--user");
    ValuesAppend(options, rest, "--uid");
    ValuesAppend(options, rest, "--group");
    ValuesAppend(options, rest, "--gid");
  }

  /** The option names are pairwise different texts. */
  lemma FlagsDistinct()
    ensures "--user" != "--uid" && "--user" != "--group" && "--user" != "--gid"
    ensures "--uid" != "--group" && "--uid" != "--gid" && "--group" != "--gid"
    ensures "-m" !in OwnerFlags && "-p" !in FileValued && "--" !in FileValued && "--" != "-p"
    ensures "--no-wait" != "--" && "--env" !in OwnerFlags && "--key" != "--uid" && "--key" != "--users"
    ensures "--context" != "--timeout" && "--context" !in OwnerFlags && "--timeout" !in OwnerFlags && "-w" !in OwnerFlags
    ensures "--env" != "--context" && "--env" != "--timeout" && "--env" != "-w" && "-w" != "--context" && "-w" != "--timeout"
    ensures "--users" != "--uid" && "--abs-time" != "--" && "--abs-time" !in NoticesValued
  {
    assert "--env"[2] != "--uid"[2] && "--env"[2] != "--gid"[2];
    assert "--context"[2] != "--timeout"[2];
    assert "--key"[2] != "--uid"[2];
    assert "--uid"[2] != "--gid"[2];
    assert "--user"[3] != "--uid"[3];
  }

  lemma ReadOwner(o: Owner, rest: seq<string>, switches: set<string>, valued: set<string>)
    requires OwnerFlags <= valued && "--" !in valued && OwnerFlags !! switches
    requires ReadArgs(rest, switches, valued).Some?
    ensures var p := ReadArgs(rest, switches, valued).value;
      ReadArgs(OwnerArgs(o) + rest, switches, valued) == Some(p.(options := OwnerOptions(o) + p.options))
  {
    var p := ReadArgs(rest, switches, valued).value;
    var u := OptionArgs(UserFlag(o), UserValue(o));
    var g := OptionArgs(GroupFlag(o), GroupValue(o));
    var up := OptionPairs(UserFlag(o), UserValue(o));
    var gp := OptionPairs(GroupFlag(o), GroupValue(o));
    assert UserFlag(o) in OwnerFlags && GroupFlag(o) in OwnerFlags;
    ReadOptionPairs(GroupFlag(o), GroupValue(o), rest, switches, valued);
    var q := p.(options := gp + p.options);
    ReadOptionPairs(UserFlag(o), UserValue(o), g + rest, switches, valued);
    Assoc(u, g, rest);
    Assoc(up, gp, p.options);
    assert OwnerOptions(o) == up + gp;
  }

  const ServiceValued: set<string> := {}

  /** `start a b --no-wait` reads as the services a, b and the switch, as
      long as no service is named like an option. */
  lemma ServiceArgsRead(verb: string, names: seq<string>, noWait: bool)
    requires forall n :: n in names ==> n != "--no-wait" && n != "--"
    ensures ReadArgs(ServiceArgs(verb, names, noWait)[1..], {"--no-wait"}, ServiceValued)
         == Some(Parsed([], if noWait then ["--no-wait"] else [], names))
  {
    var tail: seq<string> := if noWait then ["--no-wait"] else [];
    FlagsDistinct();
    assert ServiceArgs(verb, names, noWait)[1..] == names + tail;
    if noWait {
      assert tail[0] == "--no-wait" && tail[1..] == [];
      assert ReadArgs(tail[1..], {"--no-wait"}, ServiceValued) == Some(Parsed([], [], []));
      assert [tail[0]] + [] == tail;
    }
    assert ReadArgs(tail, {"--no-wait"}, ServiceValued) == Some(Parsed([], tail, []));
    ReadOperands(names, tail, {"--no-wait"}, ServiceValued);
    assert names + [] == names;
  }

  /** The signal operand is the name after "SIG": SIGHUP gives HUP. */
  lemma SignalArgsName(name: string, names: seq<string>)
    ensures SignalArgs("SIG" + name, names)[1] == name
    ensures SignalArgs("SIG" + name, names)[2..] == names
  {
    var s := "SIG" + name;
    assert Slice(s, 3, |s|) == name;
  }

  const FileSwitches: set<string> := {"-p"}
  const FileValued: set<string> := {"-m", "--user", "--uid", "--group", "--gid"}

  /** How the options shared by `mkdir` and `push` read: the parents switch
      iff asked for, the mode in octal iff given (and `int(text, 8)` of it
      gives the mode back), and the owner flags by precedence. */
  predicate FileFlagsRead(p: Parsed, makeParents: bool, permissions: Option<int>, owner: Owner)
  {
    && ("-p" in p.switches <==> makeParents)
    && Values(p.options, "-m") == (if permissions.Some? then [Oct(permissions.value)] else [])
    && (forall v :: v in Values(p.options, "-m") ==> ParseOct(v) == permissions)
    && OwnerRead(p.options, owner)
  }

  function ModeOptions(permissions: Option<int>): seq<(string, string)>
  {
    if permissions.Some? then [("-m", Oct(permissions.value))] else []
  }

  /** The parser's view of the mode and owner options. */
  lemma ReadModeOwner(permissions: Option<int>, owner: Owner)
    ensures ReadArgs(OptionArgs("-m", if permissions.Some? then Some(Oct(permissions.value)) else None) + OwnerArgs(owner),
                     FileSwitches, FileValued)
         == Some(Parsed(ModeOptions(permissions) + OwnerOptions(owner), [], []))
  {
    var mode := if permissions.Some? then Some(Oct(permissions.value)) else None;
    var own := OwnerArgs(owner);
    FlagsDistinct();
    assert ReadArgs([], FileSwitches, FileValued) == Some(Parsed([], [], []));
    ReadOwner(owner, [], FileSwitches, FileValued);
    assert own + [] == own;
    assert OwnerOptions(owner) + [] == OwnerOptions(owner);
    var p0 := Parsed(OwnerOptions(owner), [], []);
    assert ReadArgs(own, FileSwitches, FileValued) == Some(p0);
    ReadOption("-m", mode, own, FileSwitches, FileValued);
    if mode.None? {
      assert ModeOptions(permissions) + p0.options == p0.options;
    }
  }

  /** The parser's view of `operands + FileFlags(...)`. */
  lemma FileFlagsShape(makeParents: bool, permissions: Option<int>, owner: Owner, operands: seq<string>)
    requires forall x :: x in operands ==> x !in FileSwitches && x !in FileValued && x != "--"
    ensures ReadArgs(operands + FileFlags(makeParents, permissions, owner), FileSwitches, FileValued)
         == Some(Parsed(ModeOptions(permissions) + OwnerOptions(owner), if makeParents then ["-p"] else [], operands))
  {
    var sw: seq<string> := if makeParents then ["-p"] else [];
    var rest := OptionArgs("-m", if permissions.Some? then Some(Oct(permissions.value)) else None) + OwnerArgs(owner);
    var p1 := Parsed(ModeOptions(permissions) + OwnerOptions(owner), [], []);
    assert ReadArgs(rest, FileSwitches, FileValued) == Some(p1) by {
      ReadModeOwner(permissions, owner);
    }
    var p2 := p1.(switches := sw);
    assert ReadArgs(sw + rest, FileSwitches, FileValued) == Some(p2) by {
      ReadParents(makeParents, rest);
      assert sw + [] == sw;
    }
    assert ReadArgs(operands + (sw + rest), FileSwitches, FileValued) == Some(p2.(operands := operands)) by {
      ReadOperands(operands, sw + rest, FileSwitches, FileValued);
      assert operands + [] == operands;
    }
    assert FileFlags(makeParents, permissions, owner) == sw + rest;
  }

  /** The parents switch in front of the other file options. */
  lemma ReadParents(makeParents: bool, rest: seq<string>)
    requires ReadArgs(rest, FileSwitches, FileValued).Some?
    ensures var p := ReadArgs(rest, FileSwitches, FileValued).value;
      var sw: seq<string> := if makeParents then ["-p"] else [];
      ReadArgs(sw + rest, FileSwitches, FileValued) == Some(p.(switches := sw + p.switches))
  {
    var p := ReadArgs(rest, FileSwitches, FileValued).value;
    if makeParents {
      var args := ["-p"] + rest;
      assert args[0] == "-p" && args[1..] == rest;
    } else {
      assert [] + rest == rest;
      assert [] + p.switches == p.switches;
    }
  }

  lemma FileFlagsValues(makeParents: bool, permissions: Option<int>, owner: Owner, operands: seq<string>)
    ensures FileFlagsRead(Parsed(ModeOptions(permissions) + OwnerOptions(owner), if makeParents then ["-p"] else [], operands),
                          makeParents, permissions, owner)
  {
    var mOpts := ModeOptions(permissions);
    var own := OwnerOptions(owner);
    assert mOpts == OptionPairs("-m", if permissions.Some? then Some(Oct(permissions.value)) else None);
    FlagsDistinct();
    OwnerOptionsOwnerRead(owner);
    OwnerReadBefore("-m", if permissions.Some? then Some(Oct(permissions.value)) else None, own, owner);
    ModeValues(permissions, owner);
  }

  /** The mode reads back as the octal text of the permissions. */
  lemma ModeValues(permissions: Option<int>, owner: Owner)
    ensures Values(ModeOptions(permissions) + OwnerOptions(owner), "-m")
         == (if permissions.Some? then [Oct(permissions.value)] else [])
    ensures forall v :: v in Values(ModeOptions(permissions) + OwnerOptions(owner), "-m") ==> ParseOct(v) == permissions
  {
    ValuesAppend(ModeOptions(permissions), OwnerOptions(owner), "-m");
    FlagsDistinct();
    OwnerOptionsRead(owner, "-m");
    if permissions.Some? {
      ParseOctOfOct(permissions.value);
    }
  }

  lemma FileFlagsParse(args: seq<string>, makeParents: bool, permissions: Option<int>, owner: Owner, operands: seq<string>)
    requires forall x :: x in operands ==> x !in FileSwitches && x !in FileValued && x != "--"
    requires args == operands + FileFlags(makeParents, permissions, owner)
    ensures var p := ReadArgs(args, FileSwitches, FileValued);
      p.Some? && p.value.operands == operands && FileFlagsRead(p.value, makeParents, permissions, owner)
  {
    FileFlagsShape(makeParents, permissions, owner, operands);
    FileFlagsValues(makeParents, permissions, owner, operands);
  }

  /** `mkdir PATH [-p] [-m MODE] [--user U | --uid N] [--group G | --gid N]`. */
  lemma MakeDirArgsRead(path: string, makeParents: bool, permissions: Option<int>, owner: Owner)
    requires path !in FileSwitches && path !in FileValued && path != "--"
    ensures var p := ReadArgs(MakeDirArgs(path, makeParents, permissions, owner)[1..], FileSwitches, FileValued);
      p.Some? && p.value.operands == [path] && FileFlagsRead(p.value, makeParents, permissions, owner)
  {
    var flags := FileFlags(makeParents, permissions, owner);
    var args := ["mkdir", path] + flags;
    assert args[1..] == [path] + flags;
    FileFlagsParse(args[1..], makeParents, permissions, owner, [path]);
  }

  /** `push TEMP PATH ...`: the temporary file first, the target second. */
  lemma PushArgsRead(path: string, tempName: string, makeDirs: bool, permissions: Option<int>, owner: Owner)
    requires path !in FileSwitches && path !in FileValued && path != "--"
    requires tempName !in FileSwitches && tempName !in FileValued && tempName != "--"
    ensures var p := ReadArgs(PushArgs(path, tempName, makeDirs, permissions, owner)[1..], FileSwitches, FileValued);
      p.Some? && p.value.operands == [tempName, path] && FileFlagsRead(p.value, makeDirs, permissions, owner)
  {
    var flags := FileFlags(makeDirs, permissions, owner);
    var args := ["push", tempName, path] + flags;
    assert args[1..] == [tempName, path] + flags;
    FileFlagsParse(args[1..], makeDirs, permissions, owner, [tempName, path]);
  }

  function OptionPairs(flag: string, value: Option<string>): seq<(string, string)>
  {
    if value.Some? then [(flag, value.value)] else []
  }

  lemma ReadOptionPairs(flag: string, value: Option<string>, rest: seq<string>, switches: set<string>, valued: set<string>)
    requires flag in valued && flag !in switches && flag != "--"
    requires ReadArgs(rest, switches, valued).Some?
    ensures var p := ReadArgs(rest, switches, valued).value;
      ReadArgs(OptionArgs(flag, value) + rest, switches, valued) == Some(p.(options := OptionPairs(flag, value) + p.options))
  {
    ReadOption(flag, value, rest, switches, valued);
    var p := ReadArgs(rest, switches, valued).value;
    if value.None? {
      assert OptionPairs(flag, value) + p.options == p.options;
    }
  }

  const ExecValued: set<string> := {"--context", "-w", "--timeout", "--user", "--uid", "--group", "--gid", "--env"}

  function ExecOptionList(o: ExecOptions): seq<(string, string)>
  {
    OptionPairs("--context", IfGiven(o.serviceContext))
    + (OptionPairs("-w", IfGiven(o.workingDir))
       + (OptionPairs("--timeout", TimeoutText(o.timeout))
          + (OwnerOptions(o.owner) + Pairs("--env", Assignments(o.environment)))))
  }

  lemma ExecArgsTail(o: ExecOptions)
    ensures ExecArgs(o)[1..]
         == OptionArgs("--context", IfGiven(o.serviceContext))
            + (OptionArgs("-w", IfGiven(o.workingDir))
               + (OptionArgs("--timeout", TimeoutText(o.timeout))
                  + (OwnerArgs(o.owner) + (EnvArgs(o.environment) + (["--"] + o.command)))))
  {
    var a := OptionArgs("--context", IfGiven(o.serviceContext));
    var b := OptionArgs("-w", IfGiven(o.workingDir));
    var c := OptionArgs("--timeout", TimeoutText(o.timeout));
    var d := OwnerArgs(o.owner);
    var e := EnvArgs(o.environment);
    var f := ["--"] + o.command;
    var x: seq<string> := ["exec"];
    var t5 := e + f;
    var t4 := d + t5;
    var t3 := c + t4;
    var t2 := b + t3;
    var t1 := a + t2;
    assert ExecArgs(o) == x + a + b + c + d + e + ["--"] + o.command;
    Assoc(x + a + b + c + d + e, ["--"], o.command);
    Assoc(x + a + b + c + d, e, f);
    Assoc(x + a + b + c, d, t5);
    Assoc(x + a + b, c, t4);
    Assoc(x + a, b, t3);
    Assoc(x, a, t2);
    assert (x + t1)[1..] == t1;
  }

  lemma Assoc<T>(a: seq<T>, b: seq<T>, c: seq<T>)
    ensures a + b + c == a + (b + c)
  {
  }

  /** The parser's view of an `exec` vector: the options, and everything
      after "--" as the command. */
  lemma ExecArgsShape(o: ExecOptions)
    ensures ReadArgs(ExecArgs(o)[1..], {}, ExecValued) == Some(Parsed(ExecOptionList(o), [], o.command))
  {
    FlagsDistinct();
    var cmd := ["--"] + o.command;
    assert ReadArgs(cmd, {}, ExecValued) == Some(Parsed([], [], o.command)) by {
      assert cmd[0] == "--" && cmd[1..] == o.command;
    }
    var values := Assignments(o.environment);
    EnvArgsRepeat(o.environment);
    ReadRepeated("--env", values, cmd, {}, ExecValued);
    var e := EnvArgs(o.environment) + cmd;
    assert Pairs("--env", values) + [] == Pairs("--env", values);
    var p0 := Parsed(Pairs("--env", values), [], o.command);
    assert ReadArgs(e, {}, ExecValued) == Some(p0);
    ReadOwner(o.owner, e, {}, ExecValued);
    var own := OwnerArgs(o.owner) + e;
    var p1 := p0.(options := OwnerOptions(o.owner) + p0.options);
    var t := OptionArgs("--timeout", TimeoutText(o.timeout)) + own;
    ReadOptionPairs("--timeout", TimeoutText(o.timeout), own, {}, ExecValued);
    var p2 := p1.(options := OptionPairs("--timeout", TimeoutText(o.timeout)) + p1.options);
    var w := OptionArgs("-w", IfGiven(o.workingDir)) + t;
    ReadOptionPairs("-w", IfGiven(o.workingDir), t, {}, ExecValued);
    var p3 := p2.(options := OptionPairs("-w", IfGiven(o.workingDir)) + p2.options);
    ReadOptionPairs("--context", IfGiven(o.serviceContext), w, {}, ExecValued);
    ExecArgsTail(o);
  }

  /** How the `exec` options read: the context and working directory iff
      non-empty, a non-zero timeout with its "s" unit, the owner by precedence, and
      one `--env NAME=VALUE` per variable in order. */
  predicate ExecRead(options: seq<(string, string)>, o: ExecOptions)
  {
    && Values(options, "--context") == (if Given(o.serviceContext) then [o.serviceContext.value] else [])
    && Values(options, "-w") == (if Given(o.workingDir) then [o.workingDir.value] else [])
    && Values(options, "--timeout") == (if TimeoutSet(o.timeout) then [o.timeout.value + "s"] else [])
    && Values(options, "--env") == Assignments(o.environment)
    && OwnerRead(options, o.owner)
  }

  lemma {:induction false} ExecArgsRead(o: ExecOptions)
    ensures var p := ReadArgs(ExecArgs(o)[1..], {}, ExecValued);
      p.Some? && p.value.operands == o.command && p.value.switches == [] && ExecRead(p.value.options, o)
  {
    ExecArgsShape(o);
    ExecOptionsRead(o);
  }

  lemma ExecOptionsRead(o: ExecOptions)
    ensures ExecRead(ExecOptionList(o), o)
  {
    ExecOwnerRead(o);
    ExecContextRead(o);
    ExecDirRead(o);
    ExecTimeoutRead(o);
    ExecEnvRead(o);
  }

  lemma ExecContextRead(o: ExecOptions)
    ensures Values(ExecOptionList(o), "--context") == (if Given(o.serviceContext) then [o.serviceContext.value] else [])
  {
    FlagsDistinct();
    ExecOptionValues(o, "--context");
  }

  lemma ExecDirRead(o: ExecOptions)
    ensures Values(ExecOptionList(o), "-w") == (if Given(o.workingDir) then [o.workingDir.value] else [])
  {
    FlagsDistinct();
    ExecOptionValues(o, "-w");
  }

  lemma ExecTimeoutRead(o: ExecOptions)
    ensures Values(ExecOptionList(o), "--timeout") == (if TimeoutSet(o.timeout) then [o.timeout.value + "s"] else [])
  {
    FlagsDistinct();
    ExecOptionValues(o, "--timeout");
  }

  lemma ExecEnvRead(o: ExecOptions)
    ensures Values(ExecOptionList(o), "--env") == Assignments(o.environment)
  {
    FlagsDistinct();
    ExecOptionValues(o, "--env");
  }

  lemma ExecOwnerRead(o: ExecOptions)
    ensures OwnerRead(ExecOptionList(o), o.owner)
  {
    FlagsDistinct();
    var values := Assignments(o.environment);
    var d := Pairs("--env", values);
    ValuesOfPairs("--env", values, "--user");
    ValuesOfPairs("--env", values, "--uid");
    ValuesOfPairs("--env", values, "--group");
    ValuesOfPairs("--env", values, "--gid");
    OwnerOptionsOwnerRead(o.owner);
    OwnerReadAfter(OwnerOptions(o.owner), d, o.owner);
    var rest := OwnerOptions(o.owner) + d;
    OwnerReadBefore("--timeout", TimeoutText(o.timeout), rest, o.owner);
    var c := OptionPairs("--timeout", TimeoutText(o.timeout)) + rest;
    OwnerReadBefore("-w", IfGiven(o.workingDir), c, o.owner);
    var b := OptionPairs("-w", IfGiven(o.workingDir)) + c;
    OwnerReadBefore("--context", IfGiven(o.serviceContext), b, o.owner);
  }

  /** An optional option in front of other options adds its value, if it is
      the flag asked for, ahead of theirs. */
  lemma ValuesOptionPairs(flag: string, value: Option<string>, rest: seq<(string, string)>, f: string)
    ensures Values(OptionPairs(flag, value) + rest, f) == Expected(flag, value, f) + Values(rest, f)
  {
    ValuesAppend(OptionPairs(flag, value), rest, f);
  }

  lemma ExecOptionValues(o: ExecOptions, f: string)
    requires f !in OwnerFlags
    ensures Values(ExecOptionList(o), f)
         == Expected("--context", IfGiven(o.serviceContext), f)
            + Expected("-w", IfGiven(o.workingDir), f)
            + Expected("--timeout", TimeoutText(o.timeout), f)
            + (if f == "--env" then Assignments(o.environment) else [])
  {
    var own := OwnerOptions(o.owner);
    var d := Pairs("--env", Assignments(o.environment));
    var c := OptionPairs("--timeout", TimeoutText(o.timeout)) + (own + d);
    var b := OptionPairs("-w", IfGiven(o.workingDir)) + c;
    ValuesOptionPairs("--context", IfGiven(o.serviceContext), b, f);
    ValuesOptionPairs("-w", IfGiven(o.workingDir), c, f);
    ValuesOptionPairs("--timeout", TimeoutText(o.timeout), own + d, f);
    OwnerEnvValues(o, f);
  }

  /** Past the owner options only the environment is left. */
  lemma OwnerEnvValues(o: ExecOptions, f: string)
    requires f !in OwnerFlags
    ensures Values(OwnerOptions(o.owner) + Pairs("--env", Assignments(o.environment)), f)
         == (if f == "--env" then Assignments(o.environment) else [])
  {
    ValuesAppend(OwnerOptions(o.owner), Pairs("--env", Assignments(o.environment)), f);
    OwnerOptionsRead(o.owner, f);
    ValuesOfPairs("--env", Assignments(o.environment), f);
  }

  const NotifyValued: set<string> := {"--repeat-after"}

  lemma AssignmentIsNotFlag(entry: (string, string), flag: string)
    requires '=' !in flag
    ensures Assignment(entry) != flag
  {
    assert Assignment(entry)[|entry.0|] == '=';
  }

  lemma NotifyArgsTail(key: string, data: seq<(string, string)>, repeatAfter: Option<string>)
    ensures NotifyArgs(key, data, repeatAfter)[1..] == OptionArgs("--repeat-after", repeatAfter) + ([key] + Assignments(data))
  {
    var x: seq<string> := ["notify"];
    var r := OptionArgs("--repeat-after", repeatAfter);
    var ds := Assignments(data);
    Assoc(x + r, [key], ds);
    Assoc(x, r, [key] + ds);
    assert (x + (r + ([key] + ds)))[1..] == r + ([key] + ds);
  }

  lemma AssignmentsOperands(data: seq<(string, string)>)
    ensures forall x :: x in Assignments(data) ==> x != "--" && x !in NotifyValued
  {
    var ds := Assignments(data);
    forall x | x in ds ensures x != "--" && x !in NotifyValued {
      var i :| 0 <= i < |ds| && ds[i] == x;
      AssignmentIsNotFlag(data[i], "--");
      AssignmentIsNotFlag(data[i], "--repeat-after");
    }
  }

  /** `notify [--repeat-after D] KEY NAME=VALUE...`: the key and the data
      entries are the operands, in order. */
  lemma NotifyArgsRead(key: string, data: seq<(string, string)>, repeatAfter: Option<string>)
    requires key != "--" && key != "--repeat-after"
    ensures var p := ReadArgs(NotifyArgs(key, data, repeatAfter)[1..], {}, NotifyValued);
      && p.Some? && p.value.operands == [key] + Assignments(data)
      && Values(p.value.options, "--repeat-after") == (if repeatAfter.Some? then [repeatAfter.value] else [])
  {
    var ds := Assignments(data);
    AssignmentsOperands(data);
    assert ReadArgs([], {}, NotifyValued) == Some(Parsed([], [], []));
    ReadOperands(ds, [], {}, NotifyValued);
    assert ds + [] == ds;
    ReadOperands([key], ds, {}, NotifyValued);
    ReadOptionPairs("--repeat-after", repeatAfter, [key] + ds, {}, NotifyValued);
    NotifyArgsTail(key, data, repeatAfter);
    assert OptionPairs("--repeat-after", repeatAfter) + [] == OptionPairs("--repeat-after", repeatAfter);
  }

  const NoticesValued: set<string> := {"--users", "--uid", "--key"}

  lemma NoticesArgsTail(users: Option<string>, userId: Option<int>, types: seq<string>, keys: seq<string>)
    ensures NoticesArgs(users, userId, types, keys)[1..]
         == ["--abs-time"] + (OptionArgs("--users", IfGiven(users)) + (OptionArgs("--uid", IntText(userId)) + (types + KeyArgs(keys))))
  {
    var x: seq<string> := ["notices", "--abs-time"];
    var a := OptionArgs("--users", IfGiven(users));
    var b := OptionArgs("--uid", IntText(userId));
    var k := KeyArgs(keys);
    Assoc(x + a + b, types, k);
    Assoc(x + a, b, types + k);
    Assoc(x, a, b + (types + k));
    var v := a + (b + (types + k));
    assert (x + v)[1..] == ["--abs-time"] + v;
  }

  /** The parser's view of a `notices` vector. */
  lemma NoticesArgsShape(users: Option<string>, userId: Option<int>, types: seq<string>, keys: seq<string>)
    requires forall t :: t in types ==> t !in NoticesValued && t != "--abs-time" && t != "--"
    ensures ReadArgs(NoticesArgs(users, userId, types, keys)[1..], {"--abs-time"}, NoticesValued)
         == Some(Parsed(OptionPairs("--users", IfGiven(users)) + (OptionPairs("--uid", IntText(userId)) + Pairs("--key", keys)),
                        ["--abs-time"], types))
  {
    FlagsDistinct();
    var sw := {"--abs-time"};
    assert ReadArgs([], sw, NoticesValued) == Some(Parsed([], [], []));
    KeyArgsRepeat(keys);
    ReadRepeated("--key", keys, [], sw, NoticesValued);
    assert KeyArgs(keys) + [] == KeyArgs(keys);
    assert Pairs("--key", keys) + [] == Pairs("--key", keys);
    ReadOperands(types, KeyArgs(keys), sw, NoticesValued);
    assert types + [] == types;
    var t := types + KeyArgs(keys);
    var u := OptionArgs("--uid", IntText(userId)) + t;
    ReadOptionPairs("--uid", IntText(userId), t, sw, NoticesValued);
    var v := OptionArgs("--users", IfGiven(users)) + u;
    ReadOptionPairs("--users", IfGiven(users), u, sw, NoticesValued);
    NoticesArgsTail(users, userId, types, keys);
    var args := ["--abs-time"] + v;
    assert args[0] == "--abs-time" && args[1..] == v;
    var q := Parsed(OptionPairs("--users", IfGiven(users)) + (OptionPairs("--uid", IntText(userId)) + Pairs("--key", keys)), [], types);
    assert ReadArgs(v, sw, NoticesValued) == Some(q);
    assert ReadArgs(args, sw, NoticesValued) == Some(q.(switches := ["--abs-time"] + []));
    assert ["--abs-time"] + [] == ["--abs-time"];
  }

  /** `notices --abs-time [--users U] [--uid N] TYPE... --key K...`: the
      types are operands and every key is its own `--key` option. */
  lemma NoticesArgsRead(users: Option<string>, userId: Option<int>, types: seq<string>, keys: seq<string>)
    requires forall t :: t in types ==> t !in NoticesValued && t != "--abs-time" && t != "--"
    ensures var p := ReadArgs(NoticesArgs(users, userId, types, keys)[1..], {"--abs-time"}, NoticesValued);
      && p.Some? && p.value.operands == types && p.value.switches == ["--abs-time"]
      && Values(p.value.options, "--users") == (if Given(users) then [users.value] else [])
      && Values(p.value.options, "--uid") == (if userId.Some? then [IntToString(userId.value)] else [])
      && Values(p.value.options, "--key") == keys
  {
    NoticesArgsShape(users, userId, types, keys);
    NoticesValues(users, userId, keys, "--users");
    NoticesValues(users, userId, keys, "--uid");
    NoticesValues(users, userId, keys, "--key");
  }

  lemma NoticesValues(users: Option<string>, userId: Option<int>, keys: seq<string>, f: string)
    requires f in NoticesValued
    ensures Values(OptionPairs("--users", IfGiven(users)) + (OptionPairs("--uid", IntText(userId)) + Pairs("--key", keys)), f)
         == (if f == "--users" then (if Given(users) then [users.value] else [])
             else if f == "--uid" then (if userId.Some? then [IntToString(userId.value)] else [])
             else keys)
  {
    assert "--uid"[2] != "--key"[2];
    var c := Pairs("--key", keys);
    var b := OptionPairs("--uid", IntText(userId)) + c;
    ValuesOptionPairs("--users", IfGiven(users), b, f);
    ValuesOptionPairs("--uid", IntText(userId), c, f);
    ValuesOfPairs("--key", keys, f);
  }
}
