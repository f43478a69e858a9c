/** The thirteen backends whose operations are a `which <tool>` probe followed
    by one command: the configured one for the operation, or a built-in
    default (one_updater/package_managers/{apt,brew,npm,pipx,krew,tldr,ghcli,
    snap,pkgx,micro,uv,gem,vagrant}.py). */
module Simple {
  import opened Base

  datatype Tool = Apt | Brew | Npm | Pipx | Krew | Tldr | GhCli | Snap | Pkgx | Micro | Uv | Gem | Vagrant

  /** The executable whose presence `is_available` probes. */
  function Executable(t: Tool): string {
    match t
    case Apt => "apt"
    case Brew => "brew"
    case Npm => "npm"
    case Pipx => "pipx"
    case Krew => "kubectl-krew"
    case Tldr => "tldr"
    case GhCli => "gh"
    case Snap => "snap"
    case Pkgx => "pkgx"
    case Micro => "micro"
    case Uv => "uv"
    case Gem => "gem"
    case Vagrant => "vagrant"
  }

  /** The command an operation runs when `commands` has no entry for it. */
  function Default(t: Tool, op: Op): Argv {
    match (t, op)
    case (Apt, Update) => ["sudo", "apt", "update"]
    case (Apt, Upgrade) => ["sudo", "apt", "upgrade", "-y"]
    case (Brew, Update) => ["brew", "update"]
    case (Brew, Upgrade) => ["brew", "upgrade"]
    case (Npm, _) => ["npm", "update", "-g"]
    case (Pipx, _) => ["pipx", "upgrade-all"]
    case (Krew, Update) => ["kubectl", "krew", "update"]
    case (Krew, Upgrade) => ["kubectl", "krew", "upgrade"]
    case (Tldr, _) => ["tldr", "--update"]
    case (GhCli, _) => ["gh", "extension", "upgrade", "--all"]
    case (Snap, _) => ["sudo", "snap", "refresh"]
    case (Pkgx, _) => ["pkgx", "mash", "pkgx/cache", "upgrade"]
    case (Micro, _) => ["micro", "-plugin", "update"]
    case (Uv, Update) => ["uv", "self", "update"]
    case (Uv, Upgrade) => ["uv", "tool", "upgrade", "--all"]
    case (Gem, Update) => ["gem", "update", "--system"]
    case (Gem, Upgrade) => ["gem", "update"]
    case (Vagrant, _) => ["vagrant", "plugin", "update"]
  }

  /** `is_available`: `which <tool>` and nothing else. */
  function IsAvailable(t: Tool, run: Oracle): (e: Exec)
    ensures e.trace == [["which", Executable(t)]]
    ensures e.ok <==> run(["which", Executable(t)]).ok
  {
    Which(run, Executable(t))
  }

  /** The command an operation issues once the probe passed: the configured
      entry when there is one, else the default; vagrant always uses its
      fixed command and never reads `commands`. */
  function Command(t: Tool, commands: map<string, Argv>, op: Op): (c: Argv)
    ensures t != Vagrant && Key(op) in commands ==> c == commands[Key(op)]
    ensures t != Vagrant && Key(op) !in commands ==> c == Default(t, op)
    ensures t == Vagrant ==> c == ["vagrant", "plugin", "update"]
  {
    if t == Vagrant then Default(t, op) else Get(commands, Key(op), Default(t, op))
  }

  /** `update` / `upgrade`. apt and gem go through the inherited
      `_check_available`, the others call `is_available` directly; both gates
      are the probe. Unavailable: false, and nothing issued after the probe.
      Available: the operation's command runs (an empty one succeeds without
      starting a process) and its result is the answer. */
  function Perform(t: Tool, s: Settings, op: Op, run: Oracle): (e: Exec)
    ensures |e.trace| >= 1 && e.trace[0] == ["which", Executable(t)]
    ensures !run(["which", Executable(t)]).ok ==> e == Exec(false, [["which", Executable(t)]])
    ensures run(["which", Executable(t)]).ok ==>
              e.trace == [["which", Executable(t)]] + (if Command(t, s.commands, op) == [] then [] else [Command(t, s.commands, op)])
    ensures e.ok <==> run(["which", Executable(t)]).ok && (Command(t, s.commands, op) == [] || run(Command(t, s.commands, op)).ok)
  {
    var probe := if t == Apt || t == Gem then CheckAvailable(IsAvailable(t, run), op) else IsAvailable(t, run);
    Gated(probe, RunCommand(run, Command(t, s.commands, op)))
  }

  /** For these tools one command serves both operations, because the tool
      has no separate index refresh; the others have two defaults. */
  lemma SharedDefault(t: Tool)
    ensures Default(t, Update) == Default(t, Upgrade) <==> t in {Npm, Pipx, Tldr, GhCli, Snap, Pkgx, Micro, Vagrant}
  {
  }

  /** vagrant's operations do not depend on `commands` at all. */
  lemma VagrantIgnoresCommands(s1: Settings, s2: Settings, op: Op, run: Oracle)
    ensures Perform(Vagrant, s1, op, run) == Perform(Vagrant, s2, op, run)
  {
  }

  /** A configured empty command, on an available tool, succeeds with only the
      probe issued. */
  lemma EmptyCommandSucceeds(t: Tool, s: Settings, op: Op, run: Oracle)
    requires t != Vagrant && Key(op) in s.commands && s.commands[Key(op)] == []
    requires run(["which", Executable(t)]).ok
    ensures Perform(t, s, op, run) == Exec(true, [["which", Executable(t)]])
  {
  }

  // One lemma per source file: the whole behaviour of its `update` and
  // `upgrade`, in the file's own terms.

  lemma AptBehaviour(s: Settings, op: Op, run: Oracle)
    ensures Perform(Apt, s, op, run) == Gated(Which(run, "apt"), RunCommand(run,
              Get(s.commands, Key(op), if op == Update then ["sudo", "apt", "update"] else ["sudo", "apt", "upgrade", "-y"])))
  {
  }

  lemma BrewBehaviour(s: Settings, op: Op, run: Oracle)
    ensures Perform(Brew, s, op, run) == Gated(Which(run, "brew"), RunCommand(run,
              Get(s.commands, Key(op), if op == Update then ["brew", "update"] else ["brew", "upgrade"])))
  {
  }

  lemma NpmBehaviour(s: Settings, op: Op, run: Oracle)
    ensures Perform(Npm, s, op, run) == Gated(Which(run, "npm"), RunCommand(run, Get(s.commands, Key(op), ["npm", "update", "-g"])))
  {
  }

  lemma PipxBehaviour(s: Settings, op: Op, run: Oracle)
    ensures Perform(Pipx, s, op, run) == Gated(Which(run, "pipx"), RunCommand(run, Get(s.commands, Key(op), ["pipx", "upgrade-all"])))
  {
  }

  lemma KrewBehaviour(s: Settings, op: Op, run: Oracle)
    ensures Perform(Krew, s, op, run) == Gated(Which(run, "kubectl-krew"), RunCommand(run,
              Get(s.commands, Key(op), if op == Update then ["kubectl", "krew", "update"] else ["kubectl", "krew", "upgrade"])))
  {
  }

  lemma TldrBehaviour(s: Settings, op: Op, run: Oracle)
    ensures Perform(Tldr, s, op, run) == Gated(Which(run, "tldr"), RunCommand(run, Get(s.commands, Key(op), ["tldr", "--update"])))
  {
  }

  lemma GhCliBehaviour(s: Settings, op: Op, run: Oracle)
    ensures Perform(GhCli, s, op, run) == Gated(Which(run, "gh"), RunCommand(run, Get(s.commands, Key(op), ["gh", "extension", "upgrade", "--all"])))
  {
  }

  lemma SnapBehaviour(s: Settings, op: Op, run: Oracle)
    ensures Perform(Snap, s, op, run) == Gated(Which(run, "snap"), RunCommand(run, Get(s.commands, Key(op), ["sudo", "snap", "refresh"])))
  {
  }

  lemma PkgxBehaviour(s: Settings, op: Op, run: Oracle)
    ensures Perform(Pkgx, s, op, run) == Gated(Which(run, "pkgx"), RunCommand(run, Get(s.commands, Key(op), ["pkgx", "mash", "pkgx/cache", "upgrade"])))
  {
  }

  lemma MicroBehaviour(s: Settings, op: Op, run: Oracle)
    ensures Perform(Micro, s, op, run) == Gated(Which(run, "micro"), RunCommand(run, Get(s.commands, Key(op), ["micro", "-plugin", "update"])))
  {
  }

  lemma UvBehaviour(s: Settings, op: Op, run: Oracle)
    ensures Perform(Uv, s, op, run) == Gated(Which(run, "uv"), RunCommand(run,
              Get(s.commands, Key(op), if op == Update then ["uv", "self", "update"] else ["uv", "tool", "upgrade", "--all"])))
  {
  }

  lemma GemBehaviour(s: Settings, op: Op, run: Oracle)
    ensures Perform(Gem, s, op, run) == Gated(Which(run, "gem"), RunCommand(run,
              Get(s.commands, Key(op), if op == Update then ["gem", "update", "--system"] else ["gem", "update"])))
  {
  }

  lemma VagrantBehaviour(s: Settings, op: Op, run: Oracle)
    ensures Perform(Vagrant, s, op, run) == Gated(Which(run, "vagrant"), RunCommand(run, ["vagrant", "plugin", "update"]))
  {
  }
}

/** The three backends that refuse an operation missing from `commands`
    before probing (one_updater/package_managers/{flatpak,pacman,dnf}.py).
    pacman's and dnf's classes leave `is_available` abstract, so Python refuses
    to construct them; their operations are modelled all the same. */
module KeyGated {
  import opened Base

  datatype Tool = Flatpak | Pacman | Dnf

  function Executable(t: Tool): string {
    match t
    case Flatpak => "flatpak"
    case Pacman => "pacman"
    case Dnf => "dnf"
  }

  /** `_check_available(op)`: no entry for the operation means false with no
      probe; otherwise it is the `which` probe. */
  function CheckAvailable(t: Tool, commands: map<string, Argv>, op: Op, run: Oracle): (e: Exec)
    ensures Key(op) !in commands ==> e == Exec(false, [])
    ensures Key(op) in commands ==> e.trace == [["which", Executable(t)]] && (e.ok <==> run(["which", Executable(t)]).ok)
  {
    if Key(op) !in commands then Exec(false, []) else Which(run, Executable(t))
  }

  /** flatpak's `is_available`: the probe alone, whatever `commands` says. */
  function FlatpakIsAvailable(run: Oracle): (e: Exec)
    ensures e.trace == [["which", "flatpak"]]
    ensures e.ok <==> run(["which", "flatpak"]).ok
  {
    Which(run, "flatpak")
  }

  /** `update` / `upgrade`: after the gate, exactly the configured command
      runs (flatpak's `update` reads it with a default of `[]`, which the gate
      makes unreachable). */
  function Perform(t: Tool, s: Settings, op: Op, run: Oracle): (e: Exec)
    ensures Key(op) !in s.commands ==> e == Exec(false, [])
    ensures Key(op) in s.commands ==>
              e == Gated(Which(run, Executable(t)), RunCommand(run, s.commands[Key(op)]))
  {
    var gate := CheckAvailable(t, s.commands, op, run);
    if !gate.ok then Exec(false, gate.trace)
    else
      var command := if t == Flatpak && op == Update then Get(s.commands, "update", []) else s.commands[Key(op)];
      Exec(RunCommand(run, command).ok, gate.trace + RunCommand(run, command).trace)
  }
}
