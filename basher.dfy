/** The basher backend (one_updater/package_managers/basher.py): it pulls
    basher's own checkout and upgrades every package `basher outdated`
    prints, one per line. */
module Basher {
  import opened Text
  import opened Base

  const UpdateDefault: Argv := ["bash", "-c", "cd ~/.basher && git pull"]
  const UpgradeDefault: Argv := ["basher", "upgrade"]
  const OutdatedArgv: Argv := ["basher", "outdated"]

  /** `update`: the probe, then the configured update command or a
      `git pull` in `~/.basher`. */
  function Update(s: Settings, run: Oracle): (e: Exec)
    ensures !run(["which", "basher"]).ok ==> e == Exec(false, [["which", "basher"]])
    ensures run(["which", "basher"]).ok && "update" !in s.commands ==>
              e == Exec(run(UpdateDefault).ok, [["which", "basher"], UpdateDefault])
    ensures run(["which", "basher"]).ok && "update" in s.commands ==>
              e == Exec(RunCommand(run, s.commands["update"]).ok, [["which", "basher"]] + RunCommand(run, s.commands["update"]).trace)
  {
    Gated(Which(run, "basher"), RunCommand(run, Get(s.commands, "update", UpdateDefault)))
  }

  /** The packages `basher outdated` reports: none for empty output,
      otherwise the lines of the stripped output. */
  function Outdated(stdout: string): (r: seq<string>)
    ensures r == [] <==> stdout == ""
  {
    if stdout != "" then StripLines(stdout) else []
  }

  /** Round trip with the output format: one package per line, each line
      ending in a line break, reads back as those packages. */
  lemma OutdatedOfListing(packages: seq<string>)
    requires packages != [] && forall k :: 0 <= k < |packages| ==> Word(packages[k])
    ensures Outdated(Join(packages, '\n') + "\n") == packages
  {
    StripLinesOfJoin(packages);
  }

  /** Output that is not empty but only whitespace yields one package with an
      empty name. */
  lemma BlankOutputOnePackage(stdout: string)
    requires stdout != "" && Strip(stdout) == ""
    ensures Outdated(stdout) == [""]
  {
  }

  /** The command each package is appended to. */
  function UpgradeBase(commands: map<string, Argv>): (r: Argv)
    ensures "upgrade" in commands ==> r == commands["upgrade"]
    ensures "upgrade" !in commands ==> r == UpgradeDefault
  {
    Get(commands, "upgrade", UpgradeDefault)
  }

  /** `upgrade`, as a function of the settings and the runner. */
  function UpgradeSpec(s: Settings, run: Oracle): Exec {
    var probe := Which(run, "basher");
    if !probe.ok then Exec(false, probe.trace)
    else if !run(OutdatedArgv).ok then Exec(false, probe.trace + [OutdatedArgv])
    else
      var loop := RunEach(run, UpgradeBase(s.commands), Outdated(run(OutdatedArgv).stdout));
      Exec(loop.ok, probe.trace + [OutdatedArgv] + loop.trace)
  }

  /** `upgrade`: probe, list the outdated packages, then
      `success &= run_command(upgrade_command + [package])` for each. */
  method Upgrade(s: Settings, run: Oracle) returns (ok: bool, trace: seq<Argv>)
    ensures Exec(ok, trace) == UpgradeSpec(s, run)
  {
    var probe := Which(run, "basher");
    trace := probe.trace;
    if !probe.ok {
      return false, trace;
    }
    var listing := run(OutdatedArgv);
    trace := trace + [OutdatedArgv];
    if !listing.ok {
      return false, trace;
    }
    var packages := Outdated(listing.stdout);
    var loopOk, loopTrace := ForEachPackage(run, UpgradeBase(s.commands), packages);
    ok := loopOk;
    trace := trace + loopTrace;
  }

  /** Every package is attempted, and the answer is true exactly when basher
      is present, the listing succeeds and every package's upgrade
      succeeds. */
  lemma UpgradeOutcome(s: Settings, run: Oracle)
    requires run(["which", "basher"]).ok && run(OutdatedArgv).ok
    ensures var packages := Outdated(run(OutdatedArgv).stdout);
      |UpgradeSpec(s, run).trace| == 2 + |packages|
      && (forall k :: 0 <= k < |packages| ==> UpgradeSpec(s, run).trace[2 + k] == UpgradeBase(s.commands) + [packages[k]])
      && (UpgradeSpec(s, run).ok <==> forall k :: 0 <= k < |packages| ==> run(UpgradeBase(s.commands) + [packages[k]]).ok)
  {
  }

  /** An empty configured "upgrade" command makes each package name itself
      the command that is run. */
  lemma EmptyUpgradeRunsNames(s: Settings, run: Oracle)
    requires "upgrade" in s.commands && s.commands["upgrade"] == []
    requires run(["which", "basher"]).ok && run(OutdatedArgv).ok
    ensures var packages := Outdated(run(OutdatedArgv).stdout);
      forall k :: 0 <= k < |packages| ==> UpgradeSpec(s, run).trace[2 + k] == [packages[k]]
  {
    UpgradeOutcome(s, run);
  }

  /** With basher missing or the listing failing the answer is false. */
  lemma FailuresAreFalse(s: Settings, run: Oracle)
    ensures !run(["which", "basher"]).ok ==> UpgradeSpec(s, run) == Exec(false, [["which", "basher"]])
    ensures run(["which", "basher"]).ok && !run(OutdatedArgv).ok ==>
              UpgradeSpec(s, run) == Exec(false, [["which", "basher"], OutdatedArgv])
  {
  }
}
