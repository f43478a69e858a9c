/** The Go backend (one_updater/package_managers/go.py): it reinstalls every
    binary found in `$GOPATH/bin` at `@latest`, recovering each one's module
    path from `go version -m` and retrying a failed install once under a
    path heuristic chosen by the words of the error. */
module Go {
  import opened Text
  import opened Base

  /** Binaries whose install path is not their module root. */
  const SpecialCases: map<string, string> := map[
    "staticcheck" := "honnef.co/go/tools/cmd/staticcheck",
    "kube-linter" := "golang.stackrox.io/kube-linter/cmd/kube-linter",
    "yamlfmt" := "github.com/google/yamlfmt/cmd/yamlfmt"
  ]

  const NotFound := "does not contain package"
  const Excluded := "build constraints exclude all Go files"

  function InstallArgv(path: string): Argv {
    ["go", "install", path + "@latest"]
  }

  predicate IsInstall(a: Argv) {
    |a| == 3 && a[0] == "go" && a[1] == "install" && EndsWith(a[2], "@latest")
  }

  /** `update`: Go itself is left to the system's package manager. */
  function Update(): (e: Exec)
    ensures e.ok && e.trace == []
  {
    Exec(true, [])
  }

  /** The path a failed attempt at `path` is retried with, if any. Only a
      first attempt with a non-empty error is ever retried, and only for the
      two recognised error texts (line breaks in the error count as spaces). */
  function RetryPath(binary: string, path: string, stderr: string, isRetry: bool): (r: Option<string>)
    ensures r.Some? ==> !isRetry && stderr != ""
    ensures r.Some? ==> r.value == path + "/cmd/" + binary || r.value == ReplaceAll(path, "/cmd/" + binary, "")
    ensures var err := ReplaceAll(stderr, "\n", " ");
      (r.Some? <==>
         !isRetry && stderr != "" &&
         ((Contains(err, NotFound) && (!Contains(path, "/cmd/") || EndsWith(path, "/cmd/" + binary)))
          || (!Contains(err, NotFound) && Contains(err, Excluded) && Contains(path, "tools"))))
  {
    if stderr == "" then None
    else
      var err := ReplaceAll(stderr, "\n", " ");
      if Contains(err, NotFound) && !isRetry then
        if !Contains(path, "/cmd/") then Some(path + "/cmd/" + binary)
        else if EndsWith(path, "/cmd/" + binary) then Some(ReplaceAll(path, "/cmd/" + binary, ""))
        else None
      else if Contains(err, Excluded) then
        if !isRetry && Contains(path, "tools") then Some(path + "/cmd/" + binary) else None
      else None
  }

  /** `_try_install_package`: one `go install <path>@latest` (a special-case
      binary always at its table path), then at most one retry. The answer is
      the outcome of the last attempt. */
  function TryInstall(run: Oracle, binary: string, path: string, isRetry: bool): (e: Exec)
    ensures 1 <= |e.trace| <= 2 && (isRetry ==> |e.trace| == 1)
    ensures forall k :: 0 <= k < |e.trace| ==> IsInstall(e.trace[k])
    ensures e.trace[0] == InstallArgv(if binary in SpecialCases then SpecialCases[binary] else path)
    ensures e.ok <==> run(e.trace[|e.trace| - 1]).ok
    ensures |e.trace| == 2 ==> !run(e.trace[0]).ok
    ensures binary in SpecialCases ==> forall k :: 0 <= k < |e.trace| ==> e.trace[k] == InstallArgv(SpecialCases[binary])
    decreases if isRetry then 0 else 1
  {
    var p := if binary in SpecialCases then SpecialCases[binary] else path;
    var (reply, attempt) := RunWithOutput(run, InstallArgv(p));
    if reply.ok then Exec(true, attempt)
    else
      match RetryPath(binary, p, reply.stderr, isRetry)
      case None => Exec(false, attempt)
      case Some(next) =>
        var retry := TryInstall(run, binary, next, true);
        Exec(retry.ok, attempt + retry.trace)
  }

  /** The error text as `_try_install_package` reads it. */
  function Normalized(run: Oracle, path: string): string {
    ReplaceAll(run(InstallArgv(path)).stderr, "\n", " ")
  }

  /** "does not contain package" at a path without `/cmd/`: exactly one retry,
      at `<path>/cmd/<binary>`, and no third attempt whatever it reports. */
  lemma NotFoundAddsCmd(run: Oracle, binary: string, path: string)
    requires binary !in SpecialCases
    requires !run(InstallArgv(path)).ok && run(InstallArgv(path)).stderr != ""
    requires Contains(Normalized(run, path), NotFound)
    requires !Contains(path, "/cmd/")
    ensures TryInstall(run, binary, path, false) ==
              Exec(run(InstallArgv(path + "/cmd/" + binary)).ok, [InstallArgv(path), InstallArgv(path + "/cmd/" + binary)])
  {
  }

  /** "does not contain package" at `<root>/cmd/<binary>`, where that suffix
      occurs nowhere else: exactly one retry, at the module root. */
  lemma {:induction false} NotFoundStripsCmd(run: Oracle, binary: string, root: string)
    requires binary !in SpecialCases
    requires forall i :: 0 <= i < |root| ==> !StartsWith((root + ("/cmd/" + binary))[i..], "/cmd/" + binary)
    requires !run(InstallArgv(root + ("/cmd/" + binary))).ok && run(InstallArgv(root + ("/cmd/" + binary))).stderr != ""
    requires Contains(Normalized(run, root + ("/cmd/" + binary)), NotFound)
    ensures TryInstall(run, binary, root + ("/cmd/" + binary), false) ==
              Exec(run(InstallArgv(root)).ok, [InstallArgv(root + ("/cmd/" + binary)), InstallArgv(root)])
  {
    var path := root + ("/cmd/" + binary);
    ContainsAt(path, "/cmd/", |root|);
    assert path[|root|..|root| + 5] == "/cmd/";
    RemoveOnlySuffix(root, "/cmd/" + binary);
  }

  /** "does not contain package" at any path ending in `/cmd/<binary>`:
      exactly one retry, at the path with every occurrence of `/cmd/<binary>`
      removed. */
  lemma NotFoundRemovesCmd(run: Oracle, binary: string, path: string)
    requires binary !in SpecialCases
    requires EndsWith(path, "/cmd/" + binary)
    requires !run(InstallArgv(path)).ok && run(InstallArgv(path)).stderr != ""
    requires Contains(Normalized(run, path), NotFound)
    ensures TryInstall(run, binary, path, false) ==
              Exec(run(InstallArgv(ReplaceAll(path, "/cmd/" + binary, ""))).ok,
                   [InstallArgv(path), InstallArgv(ReplaceAll(path, "/cmd/" + binary, ""))])
  {
    var suffix := "/cmd/" + binary;
    var i := |path| - |suffix|;
    assert path[i..i + 5] == suffix[..5] == "/cmd/";
    ContainsAt(path, "/cmd/", i);
  }

  /** "build constraints exclude all Go files" (without "does not contain
      package"): one retry at `<path>/cmd/<binary>` exactly when the path
      mentions "tools", otherwise none. */
  lemma ExcludedRetriesOnlyTools(run: Oracle, binary: string, path: string)
    requires binary !in SpecialCases
    requires !run(InstallArgv(path)).ok && run(InstallArgv(path)).stderr != ""
    requires !Contains(Normalized(run, path), NotFound) && Contains(Normalized(run, path), Excluded)
    ensures Contains(path, "tools") ==>
              TryInstall(run, binary, path, false) ==
                Exec(run(InstallArgv(path + "/cmd/" + binary)).ok, [InstallArgv(path), InstallArgv(path + "/cmd/" + binary)])
    ensures !Contains(path, "tools") ==> TryInstall(run, binary, path, false) == Exec(false, [InstallArgv(path)])
  {
  }

  /** Errors the retry logic does not act on end the attempt with false:
      "does not contain package" at a `/cmd/` path that does not end in
      `/cmd/<binary>`, and an error naming neither recognised text. */
  lemma UnrecognisedErrorNotRetried(run: Oracle, binary: string, path: string)
    requires binary !in SpecialCases
    requires !run(InstallArgv(path)).ok && run(InstallArgv(path)).stderr != ""
    requires (Contains(Normalized(run, path), NotFound) && Contains(path, "/cmd/") && !EndsWith(path, "/cmd/" + binary))
             || (!Contains(Normalized(run, path), NotFound) && !Contains(Normalized(run, path), Excluded))
    ensures TryInstall(run, binary, path, false) == Exec(false, [InstallArgv(path)])
  {
  }

  /** A failure with nothing on stderr is never retried. */
  lemma SilentFailureNotRetried(run: Oracle, binary: string, path: string, isRetry: bool)
    requires binary !in SpecialCases
    requires !run(InstallArgv(path)).ok && run(InstallArgv(path)).stderr == ""
    ensures TryInstall(run, binary, path, isRetry) == Exec(false, [InstallArgv(path)])
  {
  }

  /** The predicate that picks the module line of `go version -m` output. */
  predicate IsModLine(line: string) {
    StartsWith(Strip(line), "mod\t")
  }

  /** The index of the first line `pick` accepts, if any: the position
      `next(... for line in lines if pick(line))` stops at. */
  function FirstMatch(lines: seq<string>, pick: string -> bool): (r: Option<nat>)
    ensures r.Some? ==> r.value < |lines| && pick(lines[r.value])
    ensures r.Some? ==> forall j :: 0 <= j < r.value ==> !pick(lines[j])
    ensures r.None? ==> forall j :: 0 <= j < |lines| ==> !pick(lines[j])
    decreases |lines|
  {
    if lines == [] then None
    else if pick(lines[0]) then Some(0)
    else
      var rest := FirstMatch(lines[1..], pick);
      assert forall j :: 1 <= j < |lines| ==> lines[j] == lines[1..][j - 1];
      match rest
      case None => None
      case Some(i) => Some(i + 1)
  }

  /** The first tab-separated field of `s` is a prefix of it that stops at
      the first tab or at the end. */
  lemma {:induction false} SplitHead(s: string, sep: char)
    ensures StartsWith(s, Split(s, sep)[0])
    ensures |Split(s, sep)[0]| == |s| || s[|Split(s, sep)[0]|] == sep
    decreases |s|
  {
    if s != [] && s[0] != sep {
      var rest := Split(s[1..], sep);
      assert Split(s, sep)[0] == [s[0]] + rest[0];
      SplitHead(s[1..], sep);
      assert s == [s[0]] + s[1..];
    }
  }

  /** A stripped module line splits into "mod" and the rest of its fields. */
  lemma ModLineFields(line: string)
    requires StartsWith(line, "mod\t")
    ensures |Split(line, '\t')| >= 2
    ensures Split(line, '\t') == ["mod"] + Split(line[4..], '\t')
  {
    assert line == "mod" + ['\t'] + line[4..];
    SplitFirst("mod", '\t', line[4..]);
  }

  /** The second tab field of a stripped module line. */
  function ModLineField(line: string): string
    requires StartsWith(line, "mod\t")
  {
    ModLineFields(line);
    Split(line, '\t')[1]
  }

  /** The field runs from just after "mod<TAB>" to the next tab or the end. */
  lemma ModLineFieldSpec(line: string)
    requires StartsWith(line, "mod\t")
    ensures var f := ModLineField(line);
      '\t' !in f && StartsWith(line, "mod\t" + f) && (|line| == 4 + |f| || line[4 + |f|] == '\t')
  {
    ModLineFields(line);
    SplitHead(line[4..], '\t');
    SplitPieces(line[4..], '\t');
    assert Split(line[4..], '\t')[0] in Split(line[4..], '\t');
  }

  /** The second tab field of the first module line, if there is one. */
  function ModuleField(stdout: string): Option<string> {
    var lines := Split(stdout, '\n');
    match FirstMatch(lines, IsModLine)
    case None => None
    case Some(i) => Some(ModLineField(Strip(lines[i])))
  }

  /** The path `upgrade` first tries for a binary: the module field when it
      is present and non-empty, else, as a last resort, the binary's own
      name. */
  function InstallPath(binary: string, stdout: string): (p: string)
    ensures (forall j :: 0 <= j < |Split(stdout, '\n')| ==> !IsModLine(Split(stdout, '\n')[j])) ==> p == binary
    ensures ModuleField(stdout) == Some("") ==> p == binary
    ensures p != binary ==> ModuleField(stdout) == Some(p)
    ensures ModuleField(stdout).Some? && ModuleField(stdout).value != "" ==> p == ModuleField(stdout).value
  {
    match ModuleField(stdout)
    case Some(f) => if f != "" then f else binary
    case None => binary
  }

  /** What the extraction reads: nothing when no line's stripped form starts
      with "mod<TAB>"; otherwise, from the first such line, the text between
      its first and second tab (or up to its end). */
  lemma ModuleFieldSpec(stdout: string)
    ensures ModuleField(stdout).None? <==> FirstMatch(Split(stdout, '\n'), IsModLine).None?
    ensures ModuleField(stdout).Some? ==>
      var line := Strip(Split(stdout, '\n')[FirstMatch(Split(stdout, '\n'), IsModLine).value]);
      var f := ModuleField(stdout).value;
      '\t' !in f && StartsWith(line, "mod\t" + f) && (|line| == 4 + |f| || line[4 + |f|] == '\t')
  {
    var lines := Split(stdout, '\n');
    match FirstMatch(lines, IsModLine)
    case None =>
    case Some(i) =>
      ModLineFieldSpec(Strip(lines[i]));
  }

  /** The module line `go version -m` prints, after stripping. */
  lemma StripModLine(modulePath: string, version: string)
    requires version != [] && !IsSpace(version[|version| - 1])
    ensures Strip("\tmod\t" + modulePath + "\t" + version) == "mod\t" + modulePath + "\t" + version
  {
    var stripped := "mod\t" + modulePath + "\t" + version;
    assert "\tmod\t" + modulePath + "\t" + version == ['\t'] + stripped;
    StripSpaceFirst('\t', stripped);
    assert stripped[0] == 'm' && stripped[|stripped| - 1] == version[|version| - 1];
    StripUnchanged(stripped);
  }

  /** Such a line is the kind the extraction looks for. */
  lemma VersionLineIsModLine(modulePath: string, version: string)
    requires version != [] && !IsSpace(version[|version| - 1])
    ensures IsModLine("\tmod\t" + modulePath + "\t" + version)
    ensures Strip("\tmod\t" + modulePath + "\t" + version) == "mod\t" + modulePath + "\t" + version
  {
    var stripped := "mod\t" + modulePath + "\t" + version;
    StripModLine(modulePath, version);
    assert stripped[..4] == "mod\t";
  }

  /** The field after "mod" in such a line is the module path. */
  lemma ModLineModule(modulePath: string, version: string)
    requires '\t' !in modulePath
    ensures |Split("mod\t" + modulePath + "\t" + version, '\t')| >= 2
    ensures Split("mod\t" + modulePath + "\t" + version, '\t')[1] == modulePath
  {
    var stripped := "mod\t" + modulePath + "\t" + version;
    ModLineFields(stripped);
    assert stripped[4..] == modulePath + ['\t'] + version;
    SplitFirst(modulePath, '\t', version);
  }

  /** Round trip with the format `go version -m` prints: for output whose
      first module line is `<TAB>mod<TAB><module><TAB><version>`, the
      module field read from it is the module. */
  lemma ModuleFieldOfVersionOutput(lines: seq<string>, i: nat, modulePath: string, version: string)
    requires forall k :: 0 <= k < |lines| ==> '\n' !in lines[k]
    requires i < |lines| && lines[i] == "\tmod\t" + modulePath + "\t" + version
    requires forall k :: 0 <= k < i ==> !IsModLine(lines[k])
    requires modulePath != [] && '\t' !in modulePath
    requires version != [] && !IsSpace(version[|version| - 1])
    ensures ModuleField(Join(lines, '\n')) == Some(modulePath)
  {
    var stdout := Join(lines, '\n');
    SplitJoin(lines, '\n');
    VersionLineIsModLine(modulePath, version);
    FirstMatchAt(lines, i, IsModLine);
    ModuleFieldAt(stdout, i, modulePath, version);
  }

  /** Hence the binary is reinstalled from its module, whatever it is called. */
  lemma ModulePathOfVersionOutput(binary: string, lines: seq<string>, i: nat, modulePath: string, version: string)
    requires forall k :: 0 <= k < |lines| ==> '\n' !in lines[k]
    requires i < |lines| && lines[i] == "\tmod\t" + modulePath + "\t" + version
    requires forall k :: 0 <= k < i ==> !IsModLine(lines[k])
    requires modulePath != [] && '\t' !in modulePath
    requires version != [] && !IsSpace(version[|version| - 1])
    ensures InstallPath(binary, Join(lines, '\n')) == modulePath
  {
    ModuleFieldOfVersionOutput(lines, i, modulePath, version);
  }

  /** The module field of output whose first module line, once stripped, is
      `mod<TAB><module><TAB><version>`. */
  lemma ModuleFieldAt(stdout: string, i: nat, modulePath: string, version: string)
    requires '\t' !in modulePath
    requires FirstMatch(Split(stdout, '\n'), IsModLine) == Some(i)
    requires Strip(Split(stdout, '\n')[i]) == "mod\t" + modulePath + "\t" + version
    ensures ModuleField(stdout) == Some(modulePath)
  {
    ModLineModule(modulePath, version);
  }

  /** A line preceded only by lines `pick` rejects is the first match. */
  lemma {:induction false} FirstMatchAt(lines: seq<string>, i: nat, pick: string -> bool)
    requires i < |lines| && pick(lines[i])
    requires forall k :: 0 <= k < i ==> !pick(lines[k])
    ensures FirstMatch(lines, pick) == Some(i)
    decreases i
  {
    if i > 0 {
      FirstMatchAt(lines[1..], i - 1, pick);
    }
  }

  /** The elements of `names` that `keep` accepts, in order. */
  function Keep(names: seq<string>, keep: string -> bool): (r: seq<string>)
    ensures |r| <= |names|
    decreases |names|
  {
    if names == [] then []
    else
      var rest := Keep(names[..|names| - 1], keep);
      if keep(names[|names| - 1]) then rest + [names[|names| - 1]] else rest
  }

  /** Whether `upgrade` processes a directory entry: it does not start with
      "." and is a regular file. */
  predicate Visible(binDir: string, isFile: string -> bool, name: string) {
    !StartsWith(name, ".") && isFile(PathJoin(binDir, name))
  }

  function IsBinary(binDir: string, isFile: string -> bool): string -> bool {
    name => Visible(binDir, isFile, name)
  }

  /** The binaries `upgrade` processes: the directory's entries, in listing
      order, that do not start with "." and are regular files. */
  function Binaries(binDir: string, names: seq<string>, isFile: string -> bool): seq<string> {
    Keep(names, IsBinary(binDir, isFile))
  }

  lemma {:induction false} KeepMembers(names: seq<string>, keep: string -> bool)
    ensures forall b :: b in Keep(names, keep) <==> b in names && keep(b)
    decreases |names|
  {
    if names != [] {
      var b := names[|names| - 1];
      KeepMembers(names[..|names| - 1], keep);
      assert names == names[..|names| - 1] + [b];
    }
  }

  /** An entry is processed exactly when it is a visible regular file. */
  lemma BinariesMembers(binDir: string, names: seq<string>, isFile: string -> bool)
    ensures forall b :: b in Binaries(binDir, names, isFile) <==> b in names && !StartsWith(b, ".") && isFile(PathJoin(binDir, b))
  {
    KeepMembers(names, IsBinary(binDir, isFile));
  }

  lemma {:induction false} KeepAppend(names: seq<string>, more: seq<string>, keep: string -> bool)
    ensures Keep(names + more, keep) == Keep(names, keep) + Keep(more, keep)
    decreases |more|
  {
    if more == [] {
      assert names + more == names;
    } else {
      var all := names + more;
      assert all[..|all| - 1] == names + more[..|more| - 1];
      KeepAppend(names, more[..|more| - 1], keep);
    }
  }

  /** Listing order is kept: the processed binaries of two listings joined
      are those of the first followed by those of the second. */
  lemma BinariesOrder(binDir: string, names: seq<string>, more: seq<string>, isFile: string -> bool)
    ensures Binaries(binDir, names + more, isFile) == Binaries(binDir, names, isFile) + Binaries(binDir, more, isFile)
  {
    KeepAppend(names, more, IsBinary(binDir, isFile));
  }

  /** What `upgrade` does for one binary, on its own: a special-case binary
      is installed directly at its table path; any other binary has its
      module path read with `go version -m` (a failure there ends that binary's turn with false)
      and then goes through `TryInstall`. */
  function Attempt(run: Oracle, binDir: string, binary: string): (e: Exec)
    ensures binary in SpecialCases ==> e == Exec(run(InstallArgv(SpecialCases[binary])).ok, [InstallArgv(SpecialCases[binary])])
    ensures binary !in SpecialCases ==> |e.trace| >= 1 && e.trace[0] == ["go", "version", "-m", PathJoin(binDir, binary)]
    ensures binary !in SpecialCases && !run(["go", "version", "-m", PathJoin(binDir, binary)]).ok ==>
              e == Exec(false, [["go", "version", "-m", PathJoin(binDir, binary)]])
    ensures binary !in SpecialCases && run(["go", "version", "-m", PathJoin(binDir, binary)]).ok ==>
              var install := TryInstall(run, binary, InstallPath(binary, run(["go", "version", "-m", PathJoin(binDir, binary)]).stdout), false);
              e == Exec(install.ok, [["go", "version", "-m", PathJoin(binDir, binary)]] + install.trace)
  {
    if binary in SpecialCases then
      var (reply, attempt) := RunWithOutput(run, InstallArgv(SpecialCases[binary]));
      Exec(reply.ok, attempt)
    else
      var info := ["go", "version", "-m", PathJoin(binDir, binary)];
      if !run(info).ok then Exec(false, [info])
      else
        var install := TryInstall(run, binary, InstallPath(binary, run(info).stdout), false);
        Exec(install.ok, [info] + install.trace)
  }

  /** `Attempt` for every binary of one directory. */
  function Attempts(run: Oracle, binDir: string): string -> Exec {
    b => Attempt(run, binDir, b)
  }

  /** The loop in `upgrade`, from `success = True`, given each binary's own
      attempt: a special-case binary's result is ASSIGNED to the flag, any
      other binary's failure clears it. Every binary is attempted. */
  function Loop(binaries: seq<string>, attempt: string -> Exec): Exec
    decreases |binaries|
  {
    if binaries == [] then Exec(true, [])
    else
      var earlier := Loop(binaries[..|binaries| - 1], attempt);
      var b := binaries[|binaries| - 1];
      var ok := if b in SpecialCases then attempt(b).ok else earlier.ok && attempt(b).ok;
      Exec(ok, earlier.trace + attempt(b).trace)
  }

  /** The prefix `upgrade` issues before the loop, when go is present. */
  function Preamble(): seq<Argv> {
    [["which", "go"], ["go", "env", "GOPATH"]]
  }

  /** How the part of `upgrade` before the loop ends: with the answer, or
      with the binaries to process in `<GOPATH>/bin`. */
  datatype Listing = Stop(result: Exec) | Proceed(binDir: string, binaries: seq<string>)

  /** `result.stdout.strip() or os.path.expanduser("~/go")`. */
  function GoPath(gopathOutput: string, goHome: string): string {
    if Strip(gopathOutput) != "" then Strip(gopathOutput) else goHome
  }

  /** `<GOPATH>/bin`, from the output of `go env GOPATH`. */
  function BinDir(host: Host): string {
    PathJoin(GoPath(host.run(["go", "env", "GOPATH"]).stdout, host.goHome), "bin")
  }

  /** The part of `upgrade` before the loop, as a function of the host:
      false after the probe when go is missing, false after `go env GOPATH`
      when that fails, true after both when `<GOPATH>/bin` is missing or
      holds no visible regular file (an empty GOPATH meaning `~/go`), and
      otherwise the binaries to process. */
  function ListingSpec(host: Host): (l: Listing)
    ensures !host.run(["which", "go"]).ok ==> l == Stop(Exec(false, [["which", "go"]]))
    ensures host.run(["which", "go"]).ok && !host.run(["go", "env", "GOPATH"]).ok ==> l == Stop(Exec(false, Preamble()))
    ensures host.run(["which", "go"]).ok && host.run(["go", "env", "GOPATH"]).ok ==>
              (l.Stop? <==> !host.pathExists(BinDir(host)) || Binaries(BinDir(host), host.listDir(BinDir(host)), host.isFile) == [])
    ensures host.run(["which", "go"]).ok && host.run(["go", "env", "GOPATH"]).ok && l.Stop? ==> l.result == Exec(true, Preamble())
    ensures l.Proceed? ==> host.run(["which", "go"]).ok && host.run(["go", "env", "GOPATH"]).ok
    ensures l.Proceed? ==> l.binDir == BinDir(host) && l.binaries == Binaries(l.binDir, host.listDir(l.binDir), host.isFile)
    ensures l.Proceed? ==> l.binaries != []
  {
    var run := host.run;
    if !run(["which", "go"]).ok then Stop(Exec(false, [["which", "go"]]))
    else if !run(["go", "env", "GOPATH"]).ok then Stop(Exec(false, Preamble()))
    else
      var binDir := BinDir(host);
      if !host.pathExists(binDir) then Stop(Exec(true, Preamble()))
      else
        var binaries := Binaries(binDir, host.listDir(binDir), host.isFile);
        if binaries == [] then Stop(Exec(true, Preamble()))
        else Proceed(binDir, binaries)
  }

  /** `upgrade`, as a function of the host. */
  function UpgradeSpec(host: Host): Exec {
    match ListingSpec(host)
    case Stop(result) => result
    case Proceed(binDir, binaries) =>
      var loop := Loop(binaries, Attempts(host.run, binDir));
      Exec(loop.ok, Preamble() + loop.trace)
  }

  /** `upgrade`: the preamble, then the loop over the binaries. */
  method Upgrade(host: Host) returns (ok: bool, trace: seq<Argv>)
    ensures Exec(ok, trace) == UpgradeSpec(host)
  {
    var listing := ListBinaries(host);
    match listing
    case Stop(result) =>
      ok, trace := result.ok, result.trace;
    case Proceed(binDir, binaries) =>
      var loopOk, loopTrace := UpgradeLoop(binaries, Attempts(host.run, binDir));
      ok, trace := loopOk, Preamble() + loopTrace;
  }

  /** The part of `upgrade` before the loop: probe, read GOPATH (falling back
      to `~/go` when it prints nothing), list `<GOPATH>/bin`. */
  method ListBinaries(host: Host) returns (listing: Listing)
    ensures listing == ListingSpec(host)
  {
    var run := host.run;
    var probe := Which(run, "go");
    if !probe.ok {
      return Stop(Exec(false, probe.trace));
    }
    var env := run(["go", "env", "GOPATH"]);
    if !env.ok {
      return Stop(Exec(false, Preamble()));
    }
    var gopath := Strip(env.stdout);
    if gopath == "" {
      gopath := host.goHome;
    }
    var binDir := PathJoin(gopath, "bin");
    if !host.pathExists(binDir) {
      return Stop(Exec(true, Preamble()));
    }
    var binaries := Binaries(binDir, host.listDir(binDir), host.isFile);
    if binaries == [] {
      return Stop(Exec(true, Preamble()));
    }
    listing := Proceed(binDir, binaries);
  }

  /** The `for binary in binaries` loop of `upgrade`, given each binary's own
      attempt. */
  method UpgradeLoop(binaries: seq<string>, attempt: string -> Exec) returns (ok: bool, trace: seq<Argv>)
    ensures Exec(ok, trace) == Loop(binaries, attempt)
  {
    ok, trace := true, [];
    var i := 0;
    while i < |binaries|
      invariant 0 <= i <= |binaries|
      invariant Exec(ok, trace) == Loop(binaries[..i], attempt)
    {
      var binary := binaries[i];
      var result := attempt(binary);
      if binary in SpecialCases {
        ok := result.ok;
      } else if !result.ok {
        ok := false;
      }
      trace := trace + result.trace;
      assert binaries[..i + 1][..i] == binaries[..i];
      i := i + 1;
    }
    assert binaries[..|binaries|] == binaries;
  }

  /** With go missing nothing is installed and the answer is false. */
  lemma UnavailableInstallsNothing(host: Host)
    requires !host.run(["which", "go"]).ok
    ensures UpgradeSpec(host) == Exec(false, [["which", "go"]])
  {
  }

  /** An empty `go env GOPATH` output means `~/go`; otherwise the stripped
      output is the GOPATH. */
  lemma GoPathFallback(host: Host)
    ensures Strip(host.run(["go", "env", "GOPATH"]).stdout) == "" ==> BinDir(host) == PathJoin(host.goHome, "bin")
    ensures Strip(host.run(["go", "env", "GOPATH"]).stdout) != "" ==>
              BinDir(host) == PathJoin(Strip(host.run(["go", "env", "GOPATH"]).stdout), "bin")
  {
  }

  /** How `upgrade` ends before reaching a binary: false after the probe,
      false after a failing `go env GOPATH`, and true after both when there
      is nothing to reinstall. Otherwise the answer and the commands are the
      loop's, after the two preamble commands. */
  lemma UpgradeEarlyExits(host: Host)
    ensures host.run(["which", "go"]).ok && !host.run(["go", "env", "GOPATH"]).ok ==>
              UpgradeSpec(host) == Exec(false, [["which", "go"], ["go", "env", "GOPATH"]])
    ensures host.run(["which", "go"]).ok && host.run(["go", "env", "GOPATH"]).ok && !host.pathExists(BinDir(host)) ==>
              UpgradeSpec(host) == Exec(true, [["which", "go"], ["go", "env", "GOPATH"]])
    ensures host.run(["which", "go"]).ok && host.run(["go", "env", "GOPATH"]).ok
            && Binaries(BinDir(host), host.listDir(BinDir(host)), host.isFile) == [] ==>
              UpgradeSpec(host) == Exec(true, [["which", "go"], ["go", "env", "GOPATH"]])
    ensures host.run(["which", "go"]).ok && host.run(["go", "env", "GOPATH"]).ok && host.pathExists(BinDir(host)) ==>
              var loop := Loop(Binaries(BinDir(host), host.listDir(BinDir(host)), host.isFile), Attempts(host.run, BinDir(host)));
              UpgradeSpec(host) == Exec(loop.ok, [["which", "go"], ["go", "env", "GOPATH"]] + loop.trace)
  {
  }

  /** A special-case binary decides the flag alone: the loop's answer after it
      is its own install's result, whatever failed before it. */
  lemma SpecialCaseOverrides(binaries: seq<string>, binary: string, attempt: string -> Exec)
    requires binary in SpecialCases
    ensures Loop(binaries + [binary], attempt).ok == attempt(binary).ok
  {
    assert (binaries + [binary])[..|binaries|] == binaries;
  }

  /** Every binary is attempted, whatever happened to the earlier ones: the
      loop's commands are each binary's own commands, one after another. */
  lemma {:induction false} LoopTrace(binaries: seq<string>, more: seq<string>, attempt: string -> Exec)
    ensures Loop(binaries + more, attempt).trace == Loop(binaries, attempt).trace + Loop(more, attempt).trace
    decreases |more|
  {
    if more == [] {
      assert binaries + more == binaries;
    } else {
      var all := binaries + more;
      assert all[..|all| - 1] == binaries + more[..|more| - 1];
      LoopTrace(binaries, more[..|more| - 1], attempt);
    }
  }

  /** Without special-case binaries the loop's answer is the conjunction of
      the binaries' own outcomes. */
  lemma {:induction false} LoopConjunction(binaries: seq<string>, attempt: string -> Exec)
    requires forall k :: 0 <= k < |binaries| ==> binaries[k] !in SpecialCases
    ensures Loop(binaries, attempt).ok <==> forall k :: 0 <= k < |binaries| ==> attempt(binaries[k]).ok
    decreases |binaries|
  {
    if binaries != [] {
      var init := binaries[..|binaries| - 1];
      LoopConjunction(init, attempt);
      assert forall k :: 0 <= k < |init| ==> init[k] == binaries[k];
    }
  }
}
