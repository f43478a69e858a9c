/** The selection and skip logic of the command line (one_updater/cli.py):
    which configured managers an `update` or `upgrade` run reaches, what it
    writes into their configuration maps, and what each one reports. */
module Cli {
  import opened Text
  import opened Base
  import opened Registry
  import Backends

  /** `get_package_manager`: the registry's error becomes None. */
  function GetPackageManager(name: string, cfg: Config): (r: Option<Manager>)
    ensures r.None? <==> name !in Managers
    ensures r.Some? ==> GetManager(name, cfg) == Ok(r.value)
  {
    match GetManager(name, cfg)
    case Ok(m) => Some(m)
    case Err(_) => None
  }

  /** The verb of the heading printed before an action:
      `action_name.title().rstrip("e")`. */
  function HeadingVerb(op: Op): string {
    RStripChar(Title(Key(op)), 'e')
  }

  lemma HeadingVerbs()
    ensures HeadingVerb(Update) == "Updat"
    ensures HeadingVerb(Upgrade) == "Upgrad"
  {
    assert Title("update") == "Update";
    assert Title("upgrade") == "Upgrade";
    assert RStripChar("Updat", 'e') == "Updat";
    assert RStripChar("Upgrad", 'e') == "Upgrad";
  }

  /** Python truthiness of `cfg.get("enabled", True)`. */
  predicate Enabled(c: Config) {
    c.enabled != Some(false)
  }

  /** `action_name in cfg.get("commands", {})`. */
  predicate Configured(c: Config, op: Op) {
    c.commands.Some? && Key(op) in c.commands.value
  }

  /** `cfg["verbose"] = verbose; cfg["status"] = status`. */
  function Touched(c: Config, verbose: bool, status: nat): (r: Config)
    ensures r.verbose == Some(verbose) && r.status == Some(status)
    ensures r.enabled == c.enabled && r.commands == c.commands
    ensures r.virtualenv == c.virtualenv && r.pyenvVersion == c.pyenvVersion
  {
    c.(verbose := Some(verbose), status := Some(status))
  }

  /** What one manager's turn shows: skipped as disabled, skipped for want of
      a command, dropped as an unknown name, or run with this heading verb
      and this answer. */
  datatype Report = Disabled | NotConfigured | Unknown | Ran(verb: string, ok: bool)

  /** One manager's turn: its report, its configuration map afterwards, and
      the commands it issued. */
  datatype Step = Step(report: Report, config: Config, trace: seq<Argv>)

  /** `run_package_manager_action`, as a function of the manager's name and
      configuration map. */
  function Action(name: string, c: Config, op: Op, verbose: bool, status: nat, host: Host): (r: Step)
    ensures !Enabled(c) || !Configured(c, op) ==> r.config == c && r.trace == []
    ensures Enabled(c) && Configured(c, op) ==> r.config == Touched(c, verbose, status)
    ensures r.report.Disabled? <==> !Enabled(c)
    ensures r.report.NotConfigured? <==> Enabled(c) && !Configured(c, op)
    ensures r.report.Unknown? <==> Enabled(c) && Configured(c, op) && name !in Managers
    ensures r.report.Ran? <==> Enabled(c) && Configured(c, op) && name in Managers
    ensures r.report.Unknown? ==> r.trace == []
    ensures r.report.Ran? ==> r.report.verb == HeadingVerb(op)
    ensures r.report.Ran? ==>
              var e := Backends.Perform(Manager(Managers[name], Init(Touched(c, verbose, status))), op, host);
              r.report.ok == e.ok && r.trace == e.trace
  {
    if !Enabled(c) then Step(Disabled, c, [])
    else if !Configured(c, op) then Step(NotConfigured, c, [])
    else
      var touched := Touched(c, verbose, status);
      match GetPackageManager(name, touched)
      case None => Step(Unknown, touched, [])
      case Some(m) =>
        var e := Backends.Perform(m, op, host);
        Step(Ran(HeadingVerb(op), e.ok), touched, e.trace)
  }

  /** A manager that runs is constructed from its map with `verbose` and
      `status` already overwritten, so the backend sees the command line's
      verbosity, and the other keys as they were. */
  lemma RunSeesOverwrite(name: string, c: Config, op: Op, verbose: bool, status: nat, host: Host)
    requires Enabled(c) && Configured(c, op) && name in Managers
    ensures var m := Manager(Managers[name], Init(Touched(c, verbose, status)));
      Action(name, c, op, verbose, status, host).trace == Backends.Perform(m, op, host).trace
      && m.settings.verbose == verbose
      && m.settings.commands == c.commands.value
      && m.settings.enabled
  {
  }

  /** Running the same action again on the map it left behind leaves that map
      as it is: the overwrite is idempotent. */
  lemma ActionIdempotent(name: string, c: Config, op: Op, verbose: bool, status: nat, host: Host)
    ensures var once := Action(name, c, op, verbose, status, host).config;
      Action(name, once, op, verbose, status, host).config == once
  {
  }

  /** The elements of `xs` that are in `s`, in order. */
  function Within(xs: seq<string>, s: set<string>): (r: seq<string>)
    ensures |r| <= |xs|
    decreases |xs|
  {
    if xs == [] then []
    else Within(xs[..|xs| - 1], s) + (if xs[|xs| - 1] in s then [xs[|xs| - 1]] else [])
  }

  /** The elements of `xs` that are not in `s`, in order. */
  function Outside(xs: seq<string>, s: set<string>): (r: seq<string>)
    ensures |r| <= |xs|
    decreases |xs|
  {
    if xs == [] then []
    else Outside(xs[..|xs| - 1], s) + (if xs[|xs| - 1] !in s then [xs[|xs| - 1]] else [])
  }

  lemma {:induction false} WithinMembers(xs: seq<string>, s: set<string>)
    ensures forall x :: x in Within(xs, s) <==> x in xs && x in s
    decreases |xs|
  {
    if xs != [] {
      WithinMembers(xs[..|xs| - 1], s);
      assert xs == xs[..|xs| - 1] + [xs[|xs| - 1]];
    }
  }

  lemma {:induction false} OutsideMembers(xs: seq<string>, s: set<string>)
    ensures forall x :: x in Outside(xs, s) <==> x in xs && x !in s
    decreases |xs|
  {
    if xs != [] {
      OutsideMembers(xs[..|xs| - 1], s);
      assert xs == xs[..|xs| - 1] + [xs[|xs| - 1]];
    }
  }

  /** `xs` is `ys` with some elements left out, the rest in their order. */
  predicate SubsequenceOf(xs: seq<string>, ys: seq<string>)
    decreases |ys|
  {
    xs == [] ||
    (ys != [] &&
      if xs[|xs| - 1] == ys[|ys| - 1] then SubsequenceOf(xs[..|xs| - 1], ys[..|ys| - 1])
      else SubsequenceOf(xs, ys[..|ys| - 1]))
  }

  lemma {:induction false} SubsequenceOfSelf(xs: seq<string>)
    ensures SubsequenceOf(xs, xs)
    decreases |xs|
  {
    if xs != [] {
      SubsequenceOfSelf(xs[..|xs| - 1]);
    }
  }

  /** Filtering keeps the order of what it keeps. */
  lemma {:induction false} WithinOrder(xs: seq<string>, s: set<string>)
    ensures SubsequenceOf(Within(xs, s), xs)
    decreases |xs|
  {
    if xs != [] {
      var init := xs[..|xs| - 1];
      var last := xs[|xs| - 1];
      WithinOrder(init, s);
      if last !in s {
        WithinMembers(init, s);
        var w := Within(init, s);
        assert Within(xs, s) == w;
        assert xs[..|xs| - 1] == init;
        if w != [] {
          assert w[|w| - 1] in w;
          assert w[|w| - 1] != last;
        }
      } else {
        assert Within(xs, s)[..|Within(xs, s)| - 1] == Within(init, s);
      }
    }
  }

  predicate Distinct(xs: seq<string>) {
    forall i, j :: 0 <= i < j < |xs| ==> xs[i] != xs[j]
  }

  /** Filtering keeps names distinct. */
  lemma {:induction false} WithinDistinct(xs: seq<string>, s: set<string>)
    requires Distinct(xs)
    ensures Distinct(Within(xs, s))
    decreases |xs|
  {
    if xs != [] {
      var init := xs[..|xs| - 1];
      assert Distinct(init);
      WithinDistinct(init, s);
      WithinMembers(init, s);
      assert xs[|xs| - 1] !in init;
    }
  }

  /** The manager-selection step of `update_managers` / `upgrade_managers`:
      with no names requested every configured manager is selected; otherwise
      the requested names missing from the configuration are an error, and
      failing that the configured managers that were requested remain, in
      configuration order. */
  function Selection(names: seq<string>, requested: seq<string>): (r: Result<seq<string>, seq<string>>)
    ensures r.Ok? ==> forall x :: x in r.value ==> x in names
  {
    if requested == [] then Ok(names)
    else
      var invalid := Outside(requested, set n | n in names);
      if invalid != [] then Err(invalid)
      else
        WithinMembers(names, set m | m in requested);
        Ok(Within(names, set m | m in requested))
  }

  /** The selection in the source's terms: an error lists exactly the
      requested names that are not configured, and otherwise the selection
      holds exactly the configured names that are requested (all of them
      when none is), without repeats when the configuration has none. */
  lemma SelectionSpec(names: seq<string>, requested: seq<string>)
    ensures Selection(names, requested).Err? ==>
      requested != [] && forall x :: x in Selection(names, requested).error <==> x in requested && x !in names
    ensures Selection(names, requested).Err? <==> exists x :: x in requested && x !in names
    ensures Selection(names, requested).Ok? ==>
      forall x :: x in Selection(names, requested).value <==> x in names && (requested == [] || x in requested)
    ensures Selection(names, requested).Ok? && Distinct(names) ==> Distinct(Selection(names, requested).value)
    ensures Selection(names, requested).Ok? ==> SubsequenceOf(Selection(names, requested).value, names)
  {
    var inNames := set n | n in names;
    var inRequested := set m | m in requested;
    OutsideMembers(requested, inNames);
    WithinMembers(names, inRequested);
    if Distinct(names) {
      WithinDistinct(names, inRequested);
    }
    if exists x :: x in requested && x !in names {
      var x :| x in requested && x !in names;
      assert x in Outside(requested, inNames);
    }
    if requested == [] {
      SubsequenceOfSelf(names);
    } else {
      WithinOrder(names, inRequested);
    }
    if Selection(names, requested).Err? {
      var invalid := Selection(names, requested).error;
      assert invalid[0] in invalid;
    }
  }

  /** What an `update` or `upgrade` run ends with. */
  datatype Outcome = InvalidManagers(names: seq<string>) | NothingSelected | Processed(reports: seq<Report>)

  /** The state of one pass of the manager loop. */
  datatype Pass = Pass(reports: seq<Report>, configs: map<string, Config>, trace: seq<Argv>)

  /** One manager's turn under the given command line. */
  function Turn(op: Op, verbose: bool, status: nat, host: Host): (string, Config) -> Step {
    (name, c) => Action(name, c, op, verbose, status, host)
  }

  /** The manager loop, as a specification: each selected manager takes its
      turn on the configuration map the earlier turns left. */
  function Sweep(selected: seq<string>, configs: map<string, Config>, turn: (string, Config) -> Step): (r: Pass)
    requires forall k :: 0 <= k < |selected| ==> selected[k] in configs
    ensures r.configs.Keys == configs.Keys && |r.reports| == |selected|
    decreases |selected|
  {
    if selected == [] then Pass([], configs, [])
    else
      var last := selected[|selected| - 1];
      var earlier := Sweep(selected[..|selected| - 1], configs, turn);
      var step := turn(last, earlier.configs[last]);
      Pass(earlier.reports + [step.report], earlier.configs[last := step.config], earlier.trace + step.trace)
  }

  /** With distinct names, each manager's turn depends only on its own
      original map: every report is that of the manager's turn on the
      configuration as loaded, every selected map ends as its turn leaves
      it, and the maps of the managers not selected are untouched. */
  lemma {:induction false} SweepIndependent(selected: seq<string>, configs: map<string, Config>, turn: (string, Config) -> Step)
    requires forall k :: 0 <= k < |selected| ==> selected[k] in configs
    requires Distinct(selected)
    ensures var r := Sweep(selected, configs, turn);
      (forall k :: 0 <= k < |selected| ==>
         r.reports[k] == turn(selected[k], configs[selected[k]]).report
         && r.configs[selected[k]] == turn(selected[k], configs[selected[k]]).config)
      && (forall n :: n in configs && n !in selected ==> r.configs[n] == configs[n])
    decreases |selected|
  {
    if selected != [] {
      var init := selected[..|selected| - 1];
      var last := selected[|selected| - 1];
      assert Distinct(init);
      SweepIndependent(init, configs, turn);
      assert last !in init;
      assert forall k :: 0 <= k < |init| ==> init[k] == selected[k];
    }
  }

  /** Hence a run's reports are those of each selected manager's action on
      its map as loaded. */
  lemma SweepReports(selected: seq<string>, configs: map<string, Config>, op: Op, verbose: bool, status: nat, host: Host)
    requires forall k :: 0 <= k < |selected| ==> selected[k] in configs
    requires Distinct(selected)
    ensures forall k :: 0 <= k < |selected| ==>
      Sweep(selected, configs, Turn(op, verbose, status, host)).reports[k] == Action(selected[k], configs[selected[k]], op, verbose, status, host).report
  {
    SweepIndependent(selected, configs, Turn(op, verbose, status, host));
  }

  /** `list_managers`: None when nothing is configured ("No package managers
      configured"), else each configured name, in order, with whether it is
      enabled. */
  function ListManagers(names: seq<string>, configs: map<string, Config>): (r: Option<seq<(string, bool)>>)
    requires forall k :: 0 <= k < |names| ==> names[k] in configs
    ensures r.None? <==> names == []
    ensures r.Some? ==> |r.value| == |names|
    ensures r.Some? ==> forall k :: 0 <= k < |names| ==> r.value[k].0 == names[k] && (r.value[k].1 <==> Enabled(configs[names[k]]))
  {
    if names == [] then None
    else Some(seq(|names|, k requires 0 <= k < |names| => (names[k], Enabled(configs[names[k]]))))
  }

  /** The listing and the backends agree on what "enabled" means: a missing
      `enabled` counts as enabled in both. */
  lemma ListingAgreesWithInit(c: Config)
    ensures Enabled(c) <==> Init(c).enabled
    ensures c.enabled == None ==> Enabled(c)
  {
  }

  /** The configuration an `update` or `upgrade` run works on: the
      `package_managers` section, its names in file order and each name's
      map, which the run updates in place. */
  class Session {
    var names: seq<string>
    var configs: map<string, Config>

    predicate Valid()
      reads this
    {
      Distinct(names) && (forall n :: n in names ==> n in configs) && forall n :: n in configs ==> n in names
    }

    constructor(names: seq<string>, configs: map<string, Config>)
      requires Distinct(names)
      requires forall n :: n in names ==> n in configs
      requires forall n :: n in configs ==> n in names
      ensures Valid() && this.names == names && this.configs == configs
    {
      this.names := names;
      this.configs := configs;
    }

    /** `run_package_manager_action` on the map stored under `name`. */
    method RunAction(name: string, op: Op, verbose: bool, status: nat, host: Host) returns (report: Report, trace: seq<Argv>)
      requires Valid() && name in configs
      modifies this
      ensures Valid() && names == old(names)
      ensures var step := Action(name, old(configs)[name], op, verbose, status, host);
        report == step.report && trace == step.trace && configs == old(configs)[name := step.config]
    {
      var c := configs[name];
      if !Enabled(c) {
        return Disabled, [];
      }
      if !Configured(c, op) {
        return NotConfigured, [];
      }
      c := Touched(c, verbose, status);
      configs := configs[name := c];
      var pm := GetPackageManager(name, c);
      if pm.None? {
        return Unknown, [];
      }
      var ok;
      ok, trace := Backends.Execute(pm.value, op, host);
      report := Ran(HeadingVerb(op), ok);
    }

    /** `update_managers` / `upgrade_managers`: select, stop on invalid names
      or an empty selection, then give each selected manager its turn. */
    method Run(op: Op, requested: seq<string>, verbose: bool, status: nat, host: Host) returns (outcome: Outcome, trace: seq<Argv>)
      requires Valid()
      modifies this
      ensures Valid() && names == old(names)
      ensures match Selection(old(names), requested)
        case Err(invalid) => outcome == InvalidManagers(invalid) && trace == [] && configs == old(configs)
        case Ok(selected) =>
          if selected == [] then outcome == NothingSelected && trace == [] && configs == old(configs)
          else
            var pass := Sweep(selected, old(configs), Turn(op, verbose, status, host));
            outcome == Processed(pass.reports) && trace == pass.trace && configs == pass.configs
    {
      var selection := Selection(names, requested);
      if selection.Err? {
        return InvalidManagers(selection.error), [];
      }
      var selected := selection.value;
      if selected == [] {
        return NothingSelected, [];
      }
      SelectionSpec(names, requested);
      var reports;
      reports, trace := RunSelected(selected, op, verbose, status, host);
      outcome := Processed(reports);
    }

    /** The `for name, cfg in package_managers.items()` loop over the
        selected managers. */
    method RunSelected(selected: seq<string>, op: Op, verbose: bool, status: nat, host: Host) returns (reports: seq<Report>, trace: seq<Argv>)
      requires Valid() && forall k :: 0 <= k < |selected| ==> selected[k] in configs
      modifies this
      ensures Valid() && names == old(names)
      ensures Pass(reports, configs, trace) == Sweep(selected, old(configs), Turn(op, verbose, status, host))
    {
      ghost var start := configs;
      reports, trace := [], [];
      for i := 0 to |selected|
        invariant Valid() && names == old(names)
        invariant Pass(reports, configs, trace) == Sweep(selected[..i], start, Turn(op, verbose, status, host))
      {
        assert selected[..i + 1][..i] == selected[..i];
        assert configs.Keys == start.Keys;
        var report, more := RunAction(selected[i], op, verbose, status, host);
        reports := reports + [report];
        trace := trace + more;
      }
      assert selected[..|selected|] == selected;
    }
  }
}
