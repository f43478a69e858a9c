/** What every backend shares (one_updater/package_managers/base.py): its
    configuration and the defaults the constructor fills in, the two ways of
    running a command, and the availability gate.

    Processes are not run: the host answers every argument vector with a
    `Reply` (did it exit 0, what it printed), and every operation returns,
    besides its boolean, the TRACE of argument vectors it issued, in order. */
module Base {
  import opened Text

  datatype Option<T> = None | Some(value: T)

  datatype Result<T, E> = Ok(value: T) | Err(error: E)

  /** An argument vector, never passed through a shell. */
  type Argv = seq<string>

  /** What one child process did: exit status 0 or not, and its captured output. */
  datatype Reply = Reply(ok: bool, stdout: string, stderr: string)

  /** The process runner, seen from outside: the reply to each argument vector. */
  type Oracle = Argv -> Reply

  /** An operation's boolean together with the commands it issued, in order. */
  datatype Exec = Exec(ok: bool, trace: seq<Argv>)

  /** The world a backend runs in: the process runner, the parts of the file
      system the Go and pip backends look at, the expansion of `~/go`, and the
      decoding of `pip list --format=json` output (None for malformed JSON,
      otherwise the `name` of each record). */
  datatype Host = Host(
    run: Oracle,
    pathExists: string -> bool,
    isFile: string -> bool,
    listDir: string -> seq<string>,
    goHome: string,
    decodeOutdated: string -> Option<seq<string>>)

  /** The two operations a backend offers, and their keys in `commands`. */
  datatype Op = Update | Upgrade

  function Key(op: Op): string {
    match op
    case Update => "update"
    case Upgrade => "upgrade"
  }

  /** One manager's configuration map. A key that is absent is `None`; the
      values are typed (a YAML value of another type is not modelled). */
  datatype Config = Config(
    enabled: Option<bool>,
    commands: Option<map<string, Argv>>,
    verbose: Option<bool>,
    status: Option<nat>,
    virtualenv: Option<string>,
    pyenvVersion: Option<string>)

  /** The fields `PackageManager.__init__` derives from the configuration. */
  datatype Settings = Settings(config: Config, enabled: bool, commands: map<string, Argv>, verbose: bool)

  /** `PackageManager.__init__`: `enabled` defaults to true, `commands` to the
      empty map and `verbose` to false; a present key is taken as it is. */
  function Init(cfg: Config): (s: Settings)
    ensures s.config == cfg
    ensures cfg.enabled == None ==> s.enabled
    ensures cfg.commands == None ==> s.commands == map[]
    ensures cfg.verbose == None ==> !s.verbose
    ensures cfg.enabled.Some? ==> s.enabled == cfg.enabled.value
    ensures cfg.commands.Some? ==> s.commands == cfg.commands.value
    ensures cfg.verbose.Some? ==> s.verbose == cfg.verbose.value
  {
    Settings(cfg,
      match cfg.enabled case Some(b) => b case None => true,
      match cfg.commands case Some(m) => m case None => map[],
      match cfg.verbose case Some(b) => b case None => false)
  }

  /** Python's `commands.get(key, default)`. */
  function Get(commands: map<string, Argv>, key: string, default: Argv): Argv {
    if key in commands then commands[key] else default
  }

  /** `run_command`: an empty vector succeeds without starting anything;
      otherwise the command is issued once and succeeds exactly when it exits
      with status 0 (a failure is a `false`, never an exception). */
  function RunCommand(run: Oracle, argv: Argv): (e: Exec)
    ensures argv == [] ==> e.ok && e.trace == []
    ensures argv != [] ==> e.trace == [argv] && (e.ok <==> run(argv).ok)
  {
    if argv == [] then Exec(true, []) else Exec(run(argv).ok, [argv])
  }

  /** `run_command_with_output`: the command is always issued, with no
      shortcut for an empty vector, and its status and output are returned. */
  function RunWithOutput(run: Oracle, argv: Argv): (r: (Reply, seq<Argv>))
    ensures r.1 == [argv]
    ensures r.0.ok == run(argv).ok && r.0.stdout == run(argv).stdout && r.0.stderr == run(argv).stderr
  {
    (run(argv), [argv])
  }

  /** The two runners agree on every non-empty vector; only `run_command`
      short-cuts the empty one. */
  lemma RunModesAgree(run: Oracle, argv: Argv)
    ensures argv != [] ==> RunCommand(run, argv) == Exec(RunWithOutput(run, argv).0.ok, RunWithOutput(run, argv).1)
    ensures argv == [] ==> RunCommand(run, argv).trace == [] && RunWithOutput(run, argv).1 == [[]]
  {
  }

  /** The probe `which <tool>` that most backends use as `is_available`. */
  function Which(run: Oracle, tool: string): (e: Exec)
    ensures e.trace == [["which", tool]]
    ensures e.ok <==> run(["which", tool]).ok
  {
    RunCommand(run, ["which", tool])
  }

  /** `_check_available`: the backend's own `is_available` result, unchanged,
      whatever the operation; it only adds a log line when it is false. */
  function CheckAvailable(isAvailable: Exec, op: Op): (e: Exec)
    ensures e.ok == isAvailable.ok && e.trace == isAvailable.trace
  {
    isAvailable
  }

  /** The name `_check_available` logs: the class name with every "Manager"
      removed, lowercased. */
  function LogName(className: string): (r: string)
    ensures forall k :: 0 <= k < |r| ==> !IsUpper(r[k])
    ensures !Contains(className, "Manager") ==> r == Lower(className)
  {
    Lower(ReplaceAll(className, "Manager", ""))
  }

  /** A probe followed, only when it succeeds, by one command. */
  function Gated(probe: Exec, command: Exec): (e: Exec)
    ensures !probe.ok ==> e == Exec(false, probe.trace)
    ensures probe.ok ==> e == Exec(command.ok, probe.trace + command.trace)
  {
    if probe.ok then Exec(command.ok, probe.trace + command.trace) else Exec(false, probe.trace)
  }

  /** Python's `os.path.join(a, b)` for two components. */
  function PathJoin(a: string, b: string): (r: string)
    ensures EndsWith(r, b)
  {
    if StartsWith(b, "/") then b
    else if a == "" || EndsWith(a, "/") then a + b
    else a + "/" + b
  }

  /** The per-package loop of the pip, cargo and basher upgraders, as a
      specification: each package is attempted, in order, with `base + [name]`,
      whatever happened to the earlier ones, and the result is the conjunction. */
  function RunEach(run: Oracle, base: Argv, packages: seq<string>): (e: Exec)
    ensures |e.trace| == |packages|
    ensures forall k :: 0 <= k < |packages| ==> e.trace[k] == base + [packages[k]]
    ensures e.ok <==> forall k :: 0 <= k < |packages| ==> run(base + [packages[k]]).ok
    decreases |packages|
  {
    if packages == [] then Exec(true, [])
    else
      var earlier := RunEach(run, base, packages[..|packages| - 1]);
      var last := RunCommand(run, base + [packages[|packages| - 1]]);
      Exec(earlier.ok && last.ok, earlier.trace + last.trace)
  }

  /** The loop itself: `success &= run_command(base + [package])` for each
      package in turn. */
  method ForEachPackage(run: Oracle, base: Argv, packages: seq<string>) returns (ok: bool, trace: seq<Argv>)
    ensures Exec(ok, trace) == RunEach(run, base, packages)
  {
    ok, trace := true, [];
    var i := 0;
    while i < |packages|
      invariant 0 <= i <= |packages|
      invariant Exec(ok, trace) == RunEach(run, base, packages[..i])
    {
      var r := RunCommand(run, base + [packages[i]]);
      ok := ok && r.ok;
      trace := trace + r.trace;
      assert packages[..i + 1][..i] == packages[..i];
      i := i + 1;
    }
    assert packages[..|packages|] == packages;
  }
}
