/** The cargo backend (one_updater/package_managers/cargo.py): it updates the
    Rust toolchain and, when an "upgrade" entry is configured, reinstalls
    every crate `cargo install --list` reports. */
module Cargo {
  import opened Text
  import opened Base

  const UpdateDefault: Argv := ["rustup", "update"]
  const ListArgv: Argv := ["cargo", "install", "--list"]
  const InstallBase: Argv := ["cargo", "install"]

  /** The update command: the configured one, else `rustup update`. */
  function UpdateCommand(commands: map<string, Argv>): (c: Argv)
    ensures "update" in commands ==> c == commands["update"]
    ensures "update" !in commands ==> c == UpdateDefault
  {
    Get(commands, "update", UpdateDefault)
  }

  /** `update`: the probe, then the update command. */
  function Update(s: Settings, run: Oracle): (e: Exec)
    ensures !run(["which", "cargo"]).ok ==> e == Exec(false, [["which", "cargo"]])
    ensures run(["which", "cargo"]).ok ==> e == Exec(RunCommand(run, UpdateCommand(s.commands)).ok,
                                                     [["which", "cargo"]] + RunCommand(run, UpdateCommand(s.commands)).trace)
  {
    Gated(Which(run, "cargo"), RunCommand(run, UpdateCommand(s.commands)))
  }

  /** The crate a listing line names: the text before its first space,
      stripped. */
  function CrateName(line: string): string {
    Strip(Split(line, ' ')[0])
  }

  /** The names `name` reads off the lines that contain ':', in order. */
  function Collect(lines: seq<string>, name: string -> string): (r: seq<string>)
    ensures |r| <= |lines|
    decreases |lines|
  {
    if lines == [] then []
    else
      var last := lines[|lines| - 1];
      Collect(lines[..|lines| - 1], name) + (if ':' in last then [name(last)] else [])
  }

  /** The crates named by the lines of `cargo install --list`. */
  function Crates(lines: seq<string>): seq<string> {
    Collect(lines, CrateName)
  }

  /** The first loop of `upgrade`: append the name of every line holding a
      ':' to `packages`. */
  method ParseCrates(stdout: string) returns (packages: seq<string>)
    ensures packages == Crates(Split(stdout, '\n'))
  {
    var lines := Split(stdout, '\n');
    packages := [];
    for i := 0 to |lines|
      invariant packages == Collect(lines[..i], CrateName)
    {
      if ':' in lines[i] {
        packages := packages + [CrateName(lines[i])];
      }
      assert lines[..i + 1][..i] == lines[..i];
    }
    assert lines[..|lines|] == lines;
  }

  /** Parsing is line by line: the names read from two listings joined are
      those of the first followed by those of the second. */
  lemma {:induction false} CollectAppend(a: seq<string>, b: seq<string>, name: string -> string)
    ensures Collect(a + b, name) == Collect(a, name) + Collect(b, name)
    decreases |b|
  {
    if b == [] {
      assert a + b == a;
    } else {
      assert (a + b)[..|a + b| - 1] == a + b[..|b| - 1];
      CollectAppend(a, b[..|b| - 1], name);
    }
  }

  /** One installed crate as `cargo install --list` prints it: a header line
      `<name> v<version>:` and one indented line per installed binary. */
  datatype Installed = Installed(name: string, version: string, binaries: seq<string>)

  function EntryLines(e: Installed): seq<string> {
    [e.name + " v" + e.version + ":"] + seq(|e.binaries|, k requires 0 <= k < |e.binaries| => "    " + e.binaries[k])
  }

  function ListingLines(entries: seq<Installed>): seq<string>
    decreases |entries|
  {
    if entries == [] then [] else ListingLines(entries[..|entries| - 1]) + EntryLines(entries[|entries| - 1])
  }

  /** What a listing looks like: names are words without ':', and no other
      part holds a ':' or a line break. */
  predicate WellFormed(e: Installed) {
    Word(e.name) && ':' !in e.name && '\n' !in e.version && ':' !in e.version
    && forall k :: 0 <= k < |e.binaries| ==> ':' !in e.binaries[k] && '\n' !in e.binaries[k]
  }

  function Names(entries: seq<Installed>): (r: seq<string>)
    ensures |r| == |entries| && forall k :: 0 <= k < |entries| ==> r[k] == entries[k].name
  {
    seq(|entries|, k requires 0 <= k < |entries| => entries[k].name)
  }

  /** A header line names its crate. */
  lemma HeaderNamesCrate(e: Installed)
    requires WellFormed(e)
    ensures ':' in EntryLines(e)[0] && CrateName(EntryLines(e)[0]) == e.name
  {
    var rest := "v" + e.version + ":";
    var header := e.name + " v" + e.version + ":";
    assert header == e.name + [' '] + rest;
    StripWord(e.name);
    SplitFirst(e.name, ' ', rest);
    assert header[|header| - 1] == ':';
  }

  /** Binary lines name nothing. */
  lemma {:induction false} BinaryLinesSkipped(lines: seq<string>)
    requires forall k :: 0 <= k < |lines| ==> ':' !in lines[k]
    ensures Collect(lines, CrateName) == []
    decreases |lines|
  {
    if lines != [] {
      BinaryLinesSkipped(lines[..|lines| - 1]);
    }
  }

  lemma EntryCrates(e: Installed)
    requires WellFormed(e)
    ensures Crates(EntryLines(e)) == [e.name]
  {
    var lines := EntryLines(e);
    HeaderNamesCrate(e);
    CollectAppend([lines[0]], lines[1..], CrateName);
    assert lines == [lines[0]] + lines[1..];
    assert [lines[0]][..0] == [];
    BinaryLinesSkipped(lines[1..]);
  }

  /** Reading back a listing of well-formed crates gives their names, in
      order: the parser inverts the format it reads. */
  lemma {:induction false} CratesOfListing(entries: seq<Installed>)
    requires forall k :: 0 <= k < |entries| ==> WellFormed(entries[k])
    ensures Crates(ListingLines(entries)) == Names(entries)
    decreases |entries|
  {
    if entries != [] {
      var init := entries[..|entries| - 1];
      CratesOfListing(init);
      CollectAppend(ListingLines(init), EntryLines(entries[|entries| - 1]), CrateName);
      EntryCrates(entries[|entries| - 1]);
    }
  }

  /** No line of a well-formed listing holds a line break. */
  lemma {:induction false} ListingLinesSingle(entries: seq<Installed>)
    requires forall k :: 0 <= k < |entries| ==> WellFormed(entries[k])
    ensures forall k :: 0 <= k < |ListingLines(entries)| ==> '\n' !in ListingLines(entries)[k]
    decreases |entries|
  {
    if entries != [] {
      var e := entries[|entries| - 1];
      ListingLinesSingle(entries[..|entries| - 1]);
      assert '\n' !in e.name by {
        assert IsSpace('\n');
      }
      assert e.name + " v" + e.version + ":" == e.name + (" v" + (e.version + ":"));
    }
  }

  /** The empty piece after the final line break names nothing. */
  lemma TrailingBlankLine(lines: seq<string>, name: string -> string)
    ensures Collect(lines + [""], name) == Collect(lines, name)
  {
    CollectAppend(lines, [""], name);
    assert [""][..0] == [];
  }

  /** Round trip with the text `cargo install --list` prints, ending in a
      line break: the crates read are the crates listed. */
  lemma ParseListing(entries: seq<Installed>)
    requires forall k :: 0 <= k < |entries| ==> WellFormed(entries[k])
    ensures Crates(Split(Join(ListingLines(entries) + [""], '\n'), '\n')) == Names(entries)
  {
    ListingLinesSingle(entries);
    SplitJoinTrailing(ListingLines(entries), '\n');
    TrailingBlankLine(ListingLines(entries), CrateName);
    CratesOfListing(entries);
  }

  /** `upgrade`, as a function of the settings and the runner. */
  function UpgradeSpec(s: Settings, run: Oracle): Exec {
    var probe := Which(run, "cargo");
    if !probe.ok then Exec(false, probe.trace)
    else
      var update := RunCommand(run, UpdateCommand(s.commands));
      var pre := probe.trace + update.trace;
      if "upgrade" !in s.commands then Exec(update.ok, pre)
      else if !run(ListArgv).ok then Exec(false, pre + [ListArgv])
      else
        var loop := RunEach(run, InstallBase, Crates(Split(run(ListArgv).stdout, '\n')));
        Exec(update.ok && loop.ok, pre + [ListArgv] + loop.trace)
  }

  /** `upgrade`: probe, run the update command and fold its result in; stop
      there unless "upgrade" is configured; otherwise list the installed
      crates and reinstall each with `cargo install <name>`. */
  method Upgrade(s: Settings, run: Oracle) returns (ok: bool, trace: seq<Argv>)
    ensures Exec(ok, trace) == UpgradeSpec(s, run)
  {
    var probe := Which(run, "cargo");
    trace := probe.trace;
    if !probe.ok {
      return false, trace;
    }
    var update := RunCommand(run, UpdateCommand(s.commands));
    ok := update.ok;
    trace := trace + update.trace;
    if "upgrade" !in s.commands {
      return;
    }
    var list := run(ListArgv);
    trace := trace + [ListArgv];
    if !list.ok {
      return false, trace;
    }
    var packages := ParseCrates(list.stdout);
    var loopOk, loopTrace := ForEachPackage(run, InstallBase, packages);
    ok := ok && loopOk;
    trace := trace + loopTrace;
  }

  /** The commands `upgrade` issues: nothing after a failed probe; without an
      "upgrade" entry, the update command and no listing; otherwise the
      listing and then `cargo install <name>` for every listed crate, in
      order, whatever the earlier ones did. */
  lemma UpgradeCommands(s: Settings, run: Oracle)
    ensures !run(["which", "cargo"]).ok ==> UpgradeSpec(s, run) == Exec(false, [["which", "cargo"]])
    ensures run(["which", "cargo"]).ok && "upgrade" !in s.commands ==>
              UpgradeSpec(s, run).trace == [["which", "cargo"]] + RunCommand(run, UpdateCommand(s.commands)).trace
    ensures run(["which", "cargo"]).ok && "upgrade" in s.commands && !run(ListArgv).ok ==>
              UpgradeSpec(s, run) == Exec(false, [["which", "cargo"]] + RunCommand(run, UpdateCommand(s.commands)).trace + [ListArgv])
    ensures var pre := [["which", "cargo"]] + RunCommand(run, UpdateCommand(s.commands)).trace + [ListArgv];
      var crates := Crates(Split(run(ListArgv).stdout, '\n'));
      run(["which", "cargo"]).ok && "upgrade" in s.commands && run(ListArgv).ok ==>
        |UpgradeSpec(s, run).trace| == |pre| + |crates|
        && UpgradeSpec(s, run).trace[..|pre|] == pre
        && forall k :: 0 <= k < |crates| ==> UpgradeSpec(s, run).trace[|pre| + k] == InstallBase + [crates[k]]
  {
  }

  /** The value of the "upgrade" entry is never run: only its presence
      matters. */
  lemma UpgradeValueIgnored(s: Settings, run: Oracle, v1: Argv, v2: Argv)
    ensures UpgradeSpec(s.(commands := s.commands["upgrade" := v1]), run) == UpgradeSpec(s.(commands := s.commands["upgrade" := v2]), run)
  {
    assert UpdateCommand(s.commands["upgrade" := v1]) == UpdateCommand(s.commands["upgrade" := v2]);
  }

  /** Every crate reinstalls with `cargo install <name>`. */
  predicate AllReinstall(run: Oracle, crates: seq<string>) {
    forall k :: 0 <= k < |crates| ==> run(InstallBase + [crates[k]]).ok
  }

  /** The whole outcome: true exactly when cargo is present, the update
      command succeeds and, with "upgrade" configured, the listing succeeds
      and every listed crate reinstalls. */
  lemma UpgradeOutcome(s: Settings, run: Oracle)
    ensures UpgradeSpec(s, run).ok <==>
      run(["which", "cargo"]).ok
      && (UpdateCommand(s.commands) == [] || run(UpdateCommand(s.commands)).ok)
      && ("upgrade" in s.commands ==> run(ListArgv).ok && AllReinstall(run, Crates(Split(run(ListArgv).stdout, '\n'))))
  {
  }
}
