/** The pip backend (one_updater/package_managers/pip.py): it picks the pip
    to use (a virtualenv's, pyenv's or the system's), lists the outdated
    packages as JSON and upgrades them one at a time. */
module Pip {
  import opened Text
  import opened Base

  /** Python truthiness of an optional string setting. */
  predicate IsSet(o: Option<string>) {
    o.Some? && o.value != ""
  }

  /** `str(Path(virtualenv) / "bin" / "pip")`. */
  function VenvPip(virtualenv: string): string {
    PathJoin(PathJoin(virtualenv, "bin"), "pip")
  }

  const WhichPyenv: Argv := ["which", "pyenv"]
  const PyenvVersions: Argv := ["pyenv", "versions", "--bare"]

  /** `_check_pyenv`: pyenv must be found with a non-blank path, and the
      version must be one of the lines `pyenv versions --bare` prints. A
      failing command ends the check with false. */
  function CheckPyenv(run: Oracle, version: string): (e: Exec)
    ensures 1 <= |e.trace| <= 2 && e.trace[0] == WhichPyenv
    ensures |e.trace| == 2 <==> run(WhichPyenv).ok && Strip(run(WhichPyenv).stdout) != ""
    ensures |e.trace| == 2 ==> e.trace[1] == PyenvVersions
    ensures e.ok <==> |e.trace| == 2 && run(PyenvVersions).ok && version in StripLines(run(PyenvVersions).stdout)
  {
    var which := run(WhichPyenv);
    if !which.ok || Strip(which.stdout) == "" then Exec(false, [WhichPyenv])
    else
      var versions := run(PyenvVersions);
      Exec(versions.ok && version in StripLines(versions.stdout), [WhichPyenv, PyenvVersions])
  }

  /** For the usual output of `pyenv versions --bare`, one version per line,
      the check accepts exactly the listed versions. */
  lemma CheckPyenvListed(run: Oracle, version: string, versions: seq<string>)
    requires run(WhichPyenv).ok && Strip(run(WhichPyenv).stdout) != ""
    requires run(PyenvVersions) == Reply(true, Join(versions, '\n') + "\n", "")
    requires versions != [] && forall k :: 0 <= k < |versions| ==> Word(versions[k])
    ensures CheckPyenv(run, version).ok <==> version in versions
  {
    StripLinesOfJoin(versions);
  }

  /** The pip command and the commands issued while choosing it. */
  datatype PipCommand = PipCommand(argv: Argv, trace: seq<Argv>)

  /** `_get_pip_command`. A virtualenv wins over pyenv: its pip when that
      file exists, else the system pip, with nothing run. Otherwise pyenv's
      pip when the pyenv check passes, else the system pip. */
  function GetPipCommand(s: Settings, host: Host): (c: PipCommand)
    ensures IsSet(s.config.virtualenv) ==> c.trace == []
    ensures IsSet(s.config.virtualenv) && host.pathExists(VenvPip(s.config.virtualenv.value)) ==> c.argv == [VenvPip(s.config.virtualenv.value)]
    ensures IsSet(s.config.virtualenv) && !host.pathExists(VenvPip(s.config.virtualenv.value)) ==> c.argv == ["pip"]
    ensures !IsSet(s.config.virtualenv) && IsSet(s.config.pyenvVersion) ==> c.trace == CheckPyenv(host.run, s.config.pyenvVersion.value).trace
    ensures !IsSet(s.config.virtualenv) && IsSet(s.config.pyenvVersion) && CheckPyenv(host.run, s.config.pyenvVersion.value).ok ==>
              c.argv == ["pyenv", "exec", "pip"]
    ensures !IsSet(s.config.virtualenv) && IsSet(s.config.pyenvVersion) && !CheckPyenv(host.run, s.config.pyenvVersion.value).ok ==>
              c.argv == ["pip"]
    ensures !IsSet(s.config.virtualenv) && !IsSet(s.config.pyenvVersion) ==> c == PipCommand(["pip"], [])
    ensures c.argv == ["pyenv", "exec", "pip"] ==>
              !IsSet(s.config.virtualenv) && IsSet(s.config.pyenvVersion) && CheckPyenv(host.run, s.config.pyenvVersion.value).ok
    ensures c.argv != []
  {
    if IsSet(s.config.virtualenv) then
      var pip := VenvPip(s.config.virtualenv.value);
      if host.pathExists(pip) then PipCommand([pip], []) else PipCommand(["pip"], [])
    else if IsSet(s.config.pyenvVersion) then
      var check := CheckPyenv(host.run, s.config.pyenvVersion.value);
      PipCommand(if check.ok then ["pyenv", "exec", "pip"] else ["pip"], check.trace)
    else PipCommand(["pip"], [])
  }

  /** With a virtualenv set, the pyenv setting makes no difference to the pip
      command: only a warning is logged when both are given. */
  lemma VirtualenvWins(s: Settings, pyenv: Option<string>, host: Host)
    requires IsSet(s.config.virtualenv)
    ensures GetPipCommand(s, host) == GetPipCommand(s.(config := s.config.(pyenvVersion := pyenv)), host)
    ensures GetPipCommand(s, host).argv in {[VenvPip(s.config.virtualenv.value)], ["pip"]}
  {
  }

  /** `is_available`: with a pyenv version set, a failing pyenv check answers
      false; otherwise `<pip> --version` decides. The pip command is chosen
      afresh, so the pyenv check can run twice. */
  function IsAvailable(s: Settings, host: Host): (e: Exec)
    ensures IsSet(s.config.pyenvVersion) && !CheckPyenv(host.run, s.config.pyenvVersion.value).ok ==>
              e == Exec(false, CheckPyenv(host.run, s.config.pyenvVersion.value).trace)
    ensures e.ok <==>
              (!IsSet(s.config.pyenvVersion) || CheckPyenv(host.run, s.config.pyenvVersion.value).ok)
              && host.run(GetPipCommand(s, host).argv + ["--version"]).ok
    ensures e.ok ==> |e.trace| >= 1 && e.trace[|e.trace| - 1] == GetPipCommand(s, host).argv + ["--version"]
    ensures !IsSet(s.config.pyenvVersion) || CheckPyenv(host.run, s.config.pyenvVersion.value).ok ==>
              e.trace == (if IsSet(s.config.pyenvVersion) then CheckPyenv(host.run, s.config.pyenvVersion.value).trace else [])
                         + GetPipCommand(s, host).trace + [GetPipCommand(s, host).argv + ["--version"]]
  {
    var pre := if IsSet(s.config.pyenvVersion) then CheckPyenv(host.run, s.config.pyenvVersion.value) else Exec(true, []);
    if !pre.ok then Exec(false, pre.trace)
    else
      var pip := GetPipCommand(s, host);
      var probe := RunCommand(host.run, pip.argv + ["--version"]);
      Exec(probe.ok, pre.trace + pip.trace + probe.trace)
  }

  /** With a pyenv version and no virtualenv, a passing check runs twice:
      once in `is_available` and again in `_get_pip_command`, before
      `pyenv exec pip --version`. */
  lemma PyenvCheckedTwice(s: Settings, host: Host)
    requires !IsSet(s.config.virtualenv) && IsSet(s.config.pyenvVersion)
    requires CheckPyenv(host.run, s.config.pyenvVersion.value).ok
    ensures IsAvailable(s, host).trace ==
              [WhichPyenv, PyenvVersions, WhichPyenv, PyenvVersions, ["pyenv", "exec", "pip", "--version"]]
  {
    var check := CheckPyenv(host.run, s.config.pyenvVersion.value);
    var pip := GetPipCommand(s, host);
    assert check.trace == [WhichPyenv, PyenvVersions];
    assert pip.trace == check.trace && pip.argv == ["pyenv", "exec", "pip"];
    assert IsAvailable(s, host).trace == check.trace + pip.trace + [pip.argv + ["--version"]];
    assert pip.argv + ["--version"] == ["pyenv", "exec", "pip", "--version"];
  }

  /** Both settings given and the pyenv version missing: pip is reported
      unavailable even though the virtualenv would have been used, and the
      pyenv commands were started to find that out. */
  lemma BothSetConsultsPyenv(s: Settings, host: Host)
    requires IsSet(s.config.virtualenv) && IsSet(s.config.pyenvVersion)
    requires !CheckPyenv(host.run, s.config.pyenvVersion.value).ok
    ensures !IsAvailable(s, host).ok
    ensures IsAvailable(s, host).trace != [] && IsAvailable(s, host).trace[0] == WhichPyenv
  {
  }

  /** `update`: pip has no index to refresh, so after the availability gate
      only a configured "update" command runs (none by default, which
      succeeds). */
  function Update(s: Settings, host: Host): (e: Exec)
    ensures !IsAvailable(s, host).ok ==> e == Exec(false, IsAvailable(s, host).trace)
    ensures IsAvailable(s, host).ok && "update" !in s.commands ==> e == IsAvailable(s, host)
    ensures IsAvailable(s, host).ok && "update" in s.commands ==>
              e == Exec(RunCommand(host.run, s.commands["update"]).ok, IsAvailable(s, host).trace + RunCommand(host.run, s.commands["update"]).trace)
  {
    Gated(CheckAvailable(IsAvailable(s, host), Op.Update), RunCommand(host.run, Get(s.commands, "update", [])))
  }

  /** The command each outdated package is appended to: the configured
      "upgrade" command, or `<pip> install --upgrade` when it is absent or
      empty. Never empty, so every package starts a process. */
  function UpgradeBase(commands: map<string, Argv>, pip: Argv): (r: Argv)
    requires pip != []
    ensures r != []
    ensures "upgrade" in commands && commands["upgrade"] != [] ==> r == commands["upgrade"]
    ensures "upgrade" !in commands || commands["upgrade"] == [] ==> r == pip + ["install", "--upgrade"]
  {
    var configured := Get(commands, "upgrade", []);
    if configured == [] then pip + ["install", "--upgrade"] else configured
  }

  function ListArgv(pip: Argv): Argv {
    pip + ["list", "--outdated", "--format=json"]
  }

  /** How `upgrade` ends before its loop: with the answer, or with the
      packages to upgrade and the command to upgrade them with. */
  datatype Listing = Stop(result: Exec) | Proceed(base: Argv, packages: seq<string>, trace: seq<Argv>)

  /** `upgrade` up to its loop: the gate, the pip command, the outdated
      listing and its decoding. A failed listing or unreadable JSON is a
      false; an empty list a true. */
  function ListingSpec(s: Settings, host: Host): (l: Listing)
    ensures l.Proceed? ==> l.packages != [] && l.base != []
  {
    var gate := CheckAvailable(IsAvailable(s, host), Op.Upgrade);
    if !gate.ok then Stop(Exec(false, gate.trace))
    else
      var pip := GetPipCommand(s, host);
      var list := ListArgv(pip.argv);
      var trace := gate.trace + pip.trace + [list];
      if !host.run(list).ok then Stop(Exec(false, trace))
      else match host.decodeOutdated(host.run(list).stdout)
        case None => Stop(Exec(false, trace))
        case Some(packages) =>
          if packages == [] then Stop(Exec(true, trace))
          else Proceed(UpgradeBase(s.commands, pip.argv), packages, trace)
  }

  /** `upgrade`, as a function of the settings and the host. */
  function UpgradeSpec(s: Settings, host: Host): Exec {
    match ListingSpec(s, host)
    case Stop(result) => result
    case Proceed(base, packages, trace) =>
      var loop := RunEach(host.run, base, packages);
      Exec(loop.ok, trace + loop.trace)
  }

  /** `upgrade`: every outdated package is attempted with its own command,
      after the listing, and the answer is true exactly when all of them
      succeeded. */
  method Upgrade(s: Settings, host: Host) returns (ok: bool, trace: seq<Argv>)
    ensures Exec(ok, trace) == UpgradeSpec(s, host)
  {
    var listing := ListingSpec(s, host);
    match listing
    case Stop(result) =>
      ok, trace := result.ok, result.trace;
    case Proceed(base, packages, pre) =>
      var loopOk, loopTrace := ForEachPackage(host.run, base, packages);
      ok, trace := loopOk, pre + loopTrace;
  }

  /** The whole outcome of `upgrade` in the source's terms: true exactly when
      pip is available, the listing succeeds and decodes, and every outdated
      package's upgrade succeeds (vacuously when none is outdated). */
  lemma UpgradeOutcome(s: Settings, host: Host)
    ensures UpgradeSpec(s, host).ok <==>
      IsAvailable(s, host).ok
      && host.run(ListArgv(GetPipCommand(s, host).argv)).ok
      && host.decodeOutdated(host.run(ListArgv(GetPipCommand(s, host).argv)).stdout).Some?
      && var packages := host.decodeOutdated(host.run(ListArgv(GetPipCommand(s, host).argv)).stdout).value;
         forall k :: 0 <= k < |packages| ==>
           host.run(UpgradeBase(s.commands, GetPipCommand(s, host).argv) + [packages[k]]).ok
  {
  }

  /** How `upgrade` ends before upgrading anything: false with the probe's
      commands when pip is unavailable; false after the listing when it
      fails or its JSON cannot be read; and true, with the listing as the
      last command, when nothing is outdated. */
  lemma UpgradeEarlyExits(s: Settings, host: Host)
    ensures !IsAvailable(s, host).ok ==> UpgradeSpec(s, host) == Exec(false, IsAvailable(s, host).trace)
    ensures var list := ListArgv(GetPipCommand(s, host).argv);
      var pre := IsAvailable(s, host).trace + GetPipCommand(s, host).trace + [list];
      IsAvailable(s, host).ok ==>
        (!host.run(list).ok ==> UpgradeSpec(s, host) == Exec(false, pre))
        && (host.run(list).ok && host.decodeOutdated(host.run(list).stdout).None? ==> UpgradeSpec(s, host) == Exec(false, pre))
        && (host.run(list).ok && host.decodeOutdated(host.run(list).stdout) == Some([]) ==> UpgradeSpec(s, host) == Exec(true, pre))
  {
  }

  /** After the listing, the commands issued are one per outdated package, in
      the listed order, each the upgrade command with the package appended. */
  lemma UpgradeCommands(s: Settings, host: Host)
    requires ListingSpec(s, host).Proceed?
    ensures var l := ListingSpec(s, host);
      UpgradeSpec(s, host).trace[..|l.trace|] == l.trace
      && |UpgradeSpec(s, host).trace| == |l.trace| + |l.packages|
      && forall k :: 0 <= k < |l.packages| ==> UpgradeSpec(s, host).trace[|l.trace| + k] == l.base + [l.packages[k]]
  {
  }
}
