# one-updater backends, modelled in Dafny

one-updater is a command-line tool that updates and upgrades what many package managers have installed: apt, Homebrew, npm, pipx, krew, tldr, gh extensions, snap, pkgx, micro plugins, uv, RubyGems, Vagrant plugins, flatpak, pacman, dnf, Go binaries, pip packages, cargo crates and basher packages. Each backend reads its configuration map (`enabled`, `commands`, `verbose`, and for pip `virtualenv`/`pyenv_version`). It turns that map into a sequence of argument vectors, runs them, and folds the exit statuses into one boolean. The command line chooses which configured backends to run, skips disabled or unconfigured ones, overwrites `verbose` and `status` in each backend's map, and looks the backend up by name in a registry.

This project models that layer.

- **Processes are an oracle.** The host's process runner is a function `Oracle = Argv -> Reply(ok, stdout, stderr)`. Every operation returns an `Exec(ok, trace)`: the boolean the source returns, plus the argument vectors it issued, in order. Direct `subprocess.run(..., check=True)` calls in the backends are issued through the same oracle and appear in the trace. Their failure is the `CalledProcessError` path of the source.
- **File system and JSON are host inputs.** The file system questions the Go and pip backends ask (`exists`, `isfile`, `listdir`), the expansion of `~/go`, and the decoding of `pip list --format=json` output are inputs bundled in `Host`.
- **Pure code stays pure.** Code that is pure branching in the source is a Dafny function. Every loop of the source that accumulates a result or changes state is a method with a `while`/`for` loop, proved equal to a recursive specification function: the Go binaries loop, the pip, cargo and basher per-package loops, cargo's line parser, and the command line's manager loop. The loop of `list_managers` only prints one line per manager; it is the function `Cli.ListManagers`, which yields those lines' contents.
- **Mutable configs are a class.** The command line updates each manager's configuration map in place. It is modelled as the class `Cli.Session`, whose `configs` map the methods reassign.

Files: `text.dfy` (the Python `str` operations used), `base.dfy` (the shared base class), `simple.dfy` (the thirteen probe-then-command backends, and the three backends gated on the `commands` keys), `go.dfy`, `pip.dfy`, `cargo.dfy`, `basher.dfy`, `registry.dfy`, `backends.dfy` (dispatch on the backend class), `cli.dfy`.

Behaviours of the code that the model keeps as written:

- **Go, `upgrade`.** A special-case binary's install result is *assigned* to the success flag (go.py:151). An earlier failure can therefore be forgotten (`Go.SpecialCaseOverrides`).
- **Go, retries.** A failed install is retried at most once (`Go.TryInstall`).
- **pip, `is_available`.** It runs the pyenv check whenever `pyenv_version` is set, even when a virtualenv is also set. The check can make pip unavailable although the virtualenv's pip would have been used (`Pip.BothSetConsultsPyenv`). One might expect the virtualenv to win outright; the code consults pyenv first, and the model follows the code.
- **pip, pyenv check.** `_get_pip_command` runs the pyenv check a second time after `is_available` ran it (`Pip.IsAvailable`, `Pip.PyenvCheckedTwice`).
- **cargo, `upgrade`.** Only the presence of an "upgrade" entry matters; its value is never run (`Cargo.UpgradeValueIgnored`).
- **basher, blank output.** `basher outdated` output that is whitespace only, but not empty, yields one package with an empty name (`Basher.BlankOutputOnePackage`).
- **basher, empty command.** An empty configured "upgrade" command makes each package name the whole command (`Basher.EmptyUpgradeRunsNames`).
- **Unregistered backends.** The flatpak, pacman, dnf and uv classes exist, but no registry name leads to them (`Registry.Unregistered`). pacman and dnf also leave `is_available` abstract. Their operations are modelled all the same.

## Model

| member | source | states |
|---|---|---|
| Base.Init | one_updater/package_managers/base.py:10-15 | the constructor keeps the map and defaults `enabled` to true, `commands` to the empty map, `verbose` to false; present keys are taken as given |
| Base.RunCommand | one_updater/package_managers/base.py:17-47 | an empty vector succeeds and starts nothing; otherwise exactly that vector is issued and the answer is its exit status 0 |
| Base.RunWithOutput | one_updater/package_managers/base.py:49-62 | the vector is always issued (no empty shortcut) and status, stdout and stderr are returned as the process gave them |
| Base.RunModesAgree | one_updater/package_managers/base.py:17-62 | the two runners agree on every non-empty vector; only `run_command` skips the empty one |
| Base.Which | one_updater/package_managers/apt.py:9-11 | the probe issues exactly `which <tool>` and is true iff it exits 0 (go.py:25-27, cargo.py:12-14 and basher.py:10-11 use it as they are) |
| Base.CheckAvailable | one_updater/package_managers/base.py:64-77 | `_check_available` answers exactly `is_available()` and issues nothing beyond it |
| Base.LogName | one_updater/package_managers/base.py:74 | the logged name has no upper-case letter, and is the lowered class name when "Manager" does not occur |
| Registry.LogNameOfClass | one_updater/package_managers/base.py:74 | for a class `<X>Manager` in which "Manager" occurs only as the suffix, the logged name is `<X>` lowercased |
| Registry.NoCapitalM | one_updater/package_managers/base.py:74 | a class `<X>Manager` with no 'M' in `<X>` (19 of the 20 classes) meets that condition |
| Registry.MicroEditorLogName | one_updater/package_managers/base.py:74 | the remaining class, MicroEditorManager, logs as "microeditor" |
| Base.Gated | one_updater/package_managers/apt.py:13-17 | a failed probe gives false with only the probe issued; otherwise the command's result after the probe |
| Base.PathJoin | one_updater/package_managers/go.py:118 | the joined path ends with its last component |
| Base.RunEach | one_updater/package_managers/cargo.py:55-59 | every package is attempted with `base + [name]`, in order, and the result is true iff every attempt succeeds |
| Base.ForEachPackage | one_updater/package_managers/cargo.py:55-59 | the `success &= run_command(...)` loop computes exactly `RunEach` |
| Simple.IsAvailable | one_updater/package_managers/brew.py:9-11 | `is_available` is `which <executable>` (kubectl-krew for krew, gh for gh-cli) and nothing else |
| Simple.Command | one_updater/package_managers/brew.py:13-23 | the configured entry for the operation when present, else the backend's default; vagrant always uses its fixed command |
| Simple.Perform | one_updater/package_managers/apt.py:13-25 | the probe comes first; unavailable means false and no further command; available means the operation's command runs and decides the answer (empty command: true) |
| Simple.SharedDefault | one_updater/package_managers/npm.py:12-23 | update and upgrade share one default exactly for npm, pipx, tldr, gh-cli, snap, pkgx, micro and vagrant |
| Simple.VagrantIgnoresCommands | one_updater/package_managers/vagrant.py:13-21 | vagrant's operations are the same whatever `commands` holds |
| Simple.EmptyCommandSucceeds | one_updater/package_managers/base.py:19-20 | a configured empty command on an available tool succeeds with only the probe issued |
| Simple.AptBehaviour | one_updater/package_managers/apt.py:9-25 | apt: probe `which apt`, defaults `sudo apt update` / `sudo apt upgrade -y` |
| Simple.BrewBehaviour | one_updater/package_managers/brew.py:9-23 | brew: probe `which brew`, defaults `brew update` / `brew upgrade` |
| Simple.NpmBehaviour | one_updater/package_managers/npm.py:8-23 | npm: probe `which npm`, default `npm update -g` for both |
| Simple.PipxBehaviour | one_updater/package_managers/pipx.py:9-23 | pipx: probe `which pipx`, default `pipx upgrade-all` for both |
| Simple.KrewBehaviour | one_updater/package_managers/krew.py:8-26 | krew: probe `which kubectl-krew`, defaults `kubectl krew update` / `kubectl krew upgrade` |
| Simple.TldrBehaviour | one_updater/package_managers/tldr.py:9-24 | tldr: probe `which tldr`, default `tldr --update` for both |
| Simple.GhCliBehaviour | one_updater/package_managers/ghcli.py:8-26 | gh-cli: probe `which gh`, default `gh extension upgrade --all` for both |
| Simple.SnapBehaviour | one_updater/package_managers/snap.py:9-29 | snap: probe `which snap`, default `sudo snap refresh` for both |
| Simple.PkgxBehaviour | one_updater/package_managers/pkgx.py:9-28 | pkgx: probe `which pkgx`, default `pkgx mash pkgx/cache upgrade` for both |
| Simple.MicroBehaviour | one_updater/package_managers/micro.py:9-28 | micro: probe `which micro`, default `micro -plugin update` for both |
| Simple.UvBehaviour | one_updater/package_managers/uv.py:9-26 | uv: probe `which uv`, defaults `uv self update` / `uv tool upgrade --all` |
| Simple.GemBehaviour | one_updater/package_managers/gem.py:11-32 | gem: probe `which gem`, defaults `gem update --system` / `gem update`; update returns the command's result unchanged |
| Simple.VagrantBehaviour | one_updater/package_managers/vagrant.py:9-21 | vagrant: probe `which vagrant`, then always `vagrant plugin update` |
| KeyGated.CheckAvailable | one_updater/package_managers/flatpak.py:19-34 | an operation missing from `commands` is false with no probe; otherwise the `which` probe decides |
| KeyGated.FlatpakIsAvailable | one_updater/package_managers/flatpak.py:36-47 | flatpak's `is_available` depends only on its probe, not on `commands` |
| KeyGated.Perform | one_updater/package_managers/pacman.py:36-60 | no entry: false and nothing issued; otherwise probe, then exactly the configured command (same for flatpak.py:49-72 and dnf.py:36-56) |
| Go.Update | one_updater/package_managers/go.py:29-32 | `update` is true and issues nothing |
| Go.RetryPath | one_updater/package_managers/go.py:63-95 | a retry happens exactly for a first attempt with non-empty stderr that says "does not contain package" at a path without `/cmd/` or ending in `/cmd/<binary>`, or (without that text) "build constraints exclude all Go files" at a path mentioning "tools"; it is at `<path>/cmd/<binary>` or with `/cmd/<binary>` removed |
| Go.TryInstall | one_updater/package_managers/go.py:34-95 | one or two `go install …@latest` vectors, at most one on a retry; the first uses the special-case path when there is one; the answer is the last attempt's; a second attempt only follows a failed first |
| Go.NotFoundAddsCmd | one_updater/package_managers/go.py:68-74 | "does not contain package" at a path without `/cmd/`: exactly one retry at `<path>/cmd/<binary>`, whose result is the answer |
| Go.NotFoundRemovesCmd | one_updater/package_managers/go.py:76-82 | "does not contain package" at any path ending in `/cmd/<binary>`: exactly one retry, at the path with every `/cmd/<binary>` removed |
| Go.NotFoundStripsCmd | one_updater/package_managers/go.py:76-82 | "does not contain package" at `<root>/cmd/<binary>`: exactly one retry at `<root>` |
| Go.ExcludedRetriesOnlyTools | one_updater/package_managers/go.py:85-92 | "build constraints exclude all Go files": a retry at `<path>/cmd/<binary>` iff the path mentions "tools" |
| Go.UnrecognisedErrorNotRetried | one_updater/package_managers/go.py:68-95 | "does not contain package" at a `/cmd/` path not ending in `/cmd/<binary>`, or an error with neither recognised text: false with no retry |
| Go.SilentFailureNotRetried | one_updater/package_managers/go.py:64-95 | a failure with empty stderr is false with no retry |
| Go.FirstMatch | one_updater/package_managers/go.py:172-179 | the index `next(...)` stops at: the first accepted line, none when no line is accepted |
| Go.FirstMatchAt | one_updater/package_managers/go.py:172-179 | a line preceded only by rejected lines is the one `next(...)` returns |
| Go.ModLineFieldSpec | one_updater/package_managers/go.py:174 | the field taken from a module line has no tab and runs from after "mod<TAB>" to the next tab or the end |
| Go.ModuleFieldSpec | one_updater/package_managers/go.py:172-179 | no module line gives nothing; otherwise the field is read from the first line whose stripped form starts with "mod<TAB>" |
| Go.ModuleFieldOfVersionOutput | one_updater/package_managers/go.py:163-179 | round trip with `go version -m` output: the module written on the first module line is the module read back |
| Go.ModulePathOfVersionOutput | one_updater/package_managers/go.py:172-182 | for such output the binary is reinstalled from its module path, whatever the binary is called |
| Go.BinariesMembers | one_updater/package_managers/go.py:124-129 | an entry of `<GOPATH>/bin` is processed iff it does not start with "." and is a regular file |
| Go.BinariesOrder | one_updater/package_managers/go.py:124-129 | the processed binaries keep the listing order |
| Go.InstallPath | one_updater/package_managers/go.py:172-191 | a non-empty module field is the path; no module line, or an empty module field, gives the binary's own name as the last resort |
| Go.Attempt | one_updater/package_managers/go.py:140-197 | a special-case binary is installed directly at its table path; any other first runs `go version -m <bin>/<binary>`: a failure there is false for that binary with nothing installed, a success goes through `TryInstall` at `InstallPath` of its output |
| Go.ListingSpec | one_updater/package_managers/go.py:99-134 | no go: false after the probe; `go env GOPATH` failing: false after it; `<GOPATH>/bin` missing or without visible regular files: true after the two commands; otherwise the loop gets exactly those binaries, non-empty |
| Go.GoPathFallback | one_updater/package_managers/go.py:113-118 | an empty GOPATH output means `~/go/bin`, otherwise `<stripped output>/bin` |
| Go.ListBinaries | one_updater/package_managers/go.py:99-134 | the part of `upgrade` before the loop (probe, GOPATH with its `~/go` fallback, listing) computes `ListingSpec` |
| Go.UpgradeLoop | one_updater/package_managers/go.py:140-197 | the `for binary in binaries` loop computes `Loop`, the flag update including the assignment at line 151 |
| Go.Upgrade | one_updater/package_managers/go.py:97-203 | `upgrade` computes `UpgradeSpec`: preamble then every binary's attempt |
| Go.UpgradeEarlyExits | one_updater/package_managers/go.py:97-203 | a failing `go env GOPATH` is false after the two commands; a missing bin dir or no binaries is true after them; otherwise the answer and commands are the loop's, after the two |
| Go.UnavailableInstallsNothing | one_updater/package_managers/go.py:99-102 | without go, false and only the probe issued |
| Go.SpecialCaseOverrides | one_updater/package_managers/go.py:145-157 | after a special-case binary, the flag is that binary's install result, whatever failed before |
| Go.LoopTrace | one_updater/package_managers/go.py:140-197 | every binary is attempted whatever happened before: the loop's commands are each binary's own, one after another |
| Go.LoopConjunction | one_updater/package_managers/go.py:182-197 | without special-case binaries the answer is true iff every binary's attempt succeeds |
| Pip.CheckPyenv | one_updater/package_managers/pip.py:30-61 | `which pyenv` must succeed with non-blank output before `pyenv versions --bare` runs; true iff the version is one of the stripped output's lines |
| Pip.CheckPyenvListed | one_updater/package_managers/pip.py:42-51 | for one-version-per-line output the check accepts exactly the listed versions |
| Pip.GetPipCommand | one_updater/package_managers/pip.py:63-77 | virtualenv: its pip if the file exists, else `pip`, nothing run; else a set pyenv version: the check's commands, then `pyenv exec pip` exactly when the check passes and `pip` when it fails; else `pip`, nothing run; never empty |
| Pip.VirtualenvWins | one_updater/package_managers/pip.py:63-77 | with a virtualenv set, `pyenv_version` does not change the pip command |
| Pip.IsAvailable | one_updater/package_managers/pip.py:24-28 | a set `pyenv_version` whose check fails answers false; otherwise `<pip> --version` decides, and the commands are the pyenv check's (when set), `_get_pip_command`'s, then `<pip> --version` |
| Pip.PyenvCheckedTwice | one_updater/package_managers/pip.py:24-28 | with a pyenv version and no virtualenv, a passing check's two commands are issued twice before `pyenv exec pip --version` |
| Pip.BothSetConsultsPyenv | one_updater/package_managers/pip.py:24-28 | with both settings and a missing pyenv version, pip is unavailable and the first command is `which pyenv` |
| Pip.Update | one_updater/package_managers/pip.py:86-95 | unavailable: false; available and no "update" entry: true with nothing more issued; available with an entry: that command runs after the probe and decides |
| Pip.UpgradeBase | one_updater/package_managers/pip.py:138-145 | the configured non-empty "upgrade" command, else `<pip> install --upgrade`; never empty |
| Pip.ListingSpec | one_updater/package_managers/pip.py:97-120 | the loop is only reached with a non-empty package list and a non-empty command |
| Pip.Upgrade | one_updater/package_managers/pip.py:97-171 | `upgrade` computes `UpgradeSpec` |
| Pip.UpgradeEarlyExits | one_updater/package_managers/pip.py:97-120 | unavailable: false with the probe's commands; a failing listing or unreadable JSON: false after the listing; nothing outdated: true with the listing as the last command, no upgrade issued |
| Pip.UpgradeOutcome | one_updater/package_managers/pip.py:97-171 | true iff pip is available, the listing succeeds and decodes, and every outdated package's upgrade succeeds |
| Pip.UpgradeCommands | one_updater/package_managers/pip.py:129-151 | after the listing, one command per outdated package, in order, each the upgrade command plus the name |
| Cargo.UpdateCommand | one_updater/package_managers/cargo.py:20 | the configured "update" entry, else `rustup update` |
| Cargo.Update | one_updater/package_managers/cargo.py:16-20 | unavailable: false after the probe; else the update command's result |
| Cargo.ParseCrates | one_updater/package_managers/cargo.py:49-53 | the append loop computes `Crates` over the output's lines |
| Cargo.CollectAppend | one_updater/package_managers/cargo.py:50-53 | parsing is line by line: two listings joined parse as the first's names then the second's |
| Cargo.HeaderNamesCrate | one_updater/package_managers/cargo.py:46-52 | a header line `<name> v<version>:` is picked and yields `<name>` |
| Cargo.BinaryLinesSkipped | one_updater/package_managers/cargo.py:51 | lines without ':' yield nothing |
| Cargo.EntryCrates | one_updater/package_managers/cargo.py:46-53 | one crate's block yields exactly its name |
| Cargo.CratesOfListing | one_updater/package_managers/cargo.py:46-53 | a listing of well-formed crates yields their names in order |
| Cargo.ParseListing | one_updater/package_managers/cargo.py:39-53 | round trip with the printed `cargo install --list` text: the crates read are the crates listed |
| Cargo.Upgrade | one_updater/package_managers/cargo.py:22-65 | `upgrade` computes `UpgradeSpec` |
| Cargo.UpgradeCommands | one_updater/package_managers/cargo.py:22-65 | a failed probe issues nothing more; without "upgrade", the update command and no listing; a failed listing ends with false; otherwise `cargo install <name>` for every listed crate, in order, after the listing |
| Cargo.UpgradeValueIgnored | one_updater/package_managers/cargo.py:32-35 | only the presence of "upgrade" matters, never its value |
| Cargo.UpgradeOutcome | one_updater/package_managers/cargo.py:22-65 | true iff cargo is present, the update command succeeds, and with "upgrade" configured the listing succeeds and every crate reinstalls |
| Basher.Update | one_updater/package_managers/basher.py:13-19 | the probe, then the configured update command or `bash -c "cd ~/.basher && git pull"` |
| Basher.Outdated | one_updater/package_managers/basher.py:31-33 | no packages exactly when the output is empty |
| Basher.OutdatedOfListing | one_updater/package_managers/basher.py:31-33 | one package per line, with a final line break, reads back as those packages |
| Basher.BlankOutputOnePackage | one_updater/package_managers/basher.py:31-33 | non-empty blank output yields one empty package name |
| Basher.UpgradeBase | one_updater/package_managers/basher.py:34 | the configured "upgrade" entry, else `basher upgrade` |
| Basher.Upgrade | one_updater/package_managers/basher.py:21-41 | `upgrade` computes `UpgradeSpec` |
| Basher.UpgradeOutcome | one_updater/package_managers/basher.py:35-37 | every outdated package gets its own command, in order, and the answer is true iff all succeed |
| Basher.EmptyUpgradeRunsNames | one_updater/package_managers/basher.py:34-37 | an empty configured command makes each package name the whole command |
| Basher.FailuresAreFalse | one_updater/package_managers/basher.py:21-41 | a missing basher or a failed listing is false with nothing further issued |
| Registry.GetManager | one_updater/package_managers/registry.py:44-49 | an unregistered name is the error "Unknown package manager: <name>"; a registered one gives its class built from the map unchanged |
| Registry.Unregistered | one_updater/package_managers/registry.py:25-42 | "flatpak", "pacman", "dnf" and "uv" are not registered |
| Registry.NamedClasses | one_updater/package_managers/registry.py:25-42 | "brew", "gh-cli", "krew", "micro" and "vagrant" lead to HomebrewManager, GhCliManager, KubectlKrewManager, MicroEditorManager, VagrantPluginManager |
| Registry.RegistryInjective | one_updater/package_managers/registry.py:25-42 | distinct registered names lead to distinct classes |
| Backends.Perform | one_updater/cli.py:122 | no backend answers true without starting a process, except go's `update` |
| Backends.Execute | one_updater/cli.py:122 | running the action with the loop methods gives exactly `Perform` |
| Cli.GetPackageManager | one_updater/cli.py:88-94 | the registry's error becomes None, a success its manager |
| Cli.HeadingVerbs | one_updater/cli.py:120 | the heading verbs are "Updat" and "Upgrad" |
| Cli.Touched | one_updater/cli.py:113-114 | `verbose` and `status` are overwritten and every other key kept |
| Cli.Action | one_updater/cli.py:97-125 | disabled: skipped, map untouched, nothing run; no entry for the operation: likewise; otherwise the map is overwritten, an unknown name runs nothing, a known one runs with the heading verb, and its answer and commands are the backend's, built from the overwritten map |
| Cli.RunSeesOverwrite | one_updater/cli.py:113-122 | the manager that runs is built from the overwritten map: it sees the command line's verbosity and the map's own commands |
| Cli.ActionIdempotent | one_updater/cli.py:113-114 | running the action again on the map it left leaves that map unchanged |
| Cli.WithinMembers | one_updater/cli.py:153 | the filter keeps exactly the configured names that were requested |
| Cli.OutsideMembers | one_updater/cli.py:148 | the invalid list holds exactly the requested names that are not configured |
| Cli.WithinDistinct | one_updater/cli.py:153 | filtering keeps names distinct |
| Cli.WithinOrder | one_updater/cli.py:153 | filtering keeps the configuration order: the result is a subsequence of the names |
| Cli.Selection | one_updater/cli.py:147-153 | every selected name is a configured one |
| Cli.SelectionSpec | one_updater/cli.py:147-158 | an error iff some requested name is not configured, listing exactly those; otherwise the configured names that were requested (all when none was), in configuration order, distinct |
| Cli.Sweep | one_updater/cli.py:160-164 | every selected manager takes a turn and the set of configured names is unchanged |
| Cli.SweepIndependent | one_updater/cli.py:160-164 | each manager's report and final map depend only on its own map as loaded; unselected maps are untouched |
| Cli.SweepReports | one_updater/cli.py:160-164 | the reports of a run are each selected manager's action on its own map |
| Cli.ListManagers | one_updater/cli.py:128-139 | nothing configured: the empty message; otherwise each name in order with its enabled flag, a missing flag counting as enabled |
| Cli.ListingAgreesWithInit | one_updater/cli.py:137-138 | the listing's notion of enabled is the backend constructor's |
| Cli.Session.RunAction | one_updater/cli.py:97-125 | the action on the stored map: its report and commands are `Action`'s, and only that name's map changes, to `Action`'s result |
| Cli.Session.RunSelected | one_updater/cli.py:160-164 | the manager loop computes `Sweep` over the stored maps |
| Cli.Session.Run | one_updater/cli.py:142-164 | invalid names: error, nothing run or changed; empty selection: nothing run or changed; otherwise the loop over the selection |

## Left out

- Logging, console output and the text of messages are not modelled (the rich console, the `logging` calls, the success and failure lines of one_updater/cli.py:121-125). The error exit of the selection (`sys.exit(1)`) is the `InvalidManagers` outcome.
- Command-line plumbing is not modelled: argparse, `main`, YAML loading, `init_config`, `setup_logging` and `show_version`.
- Process execution is not modelled. The base runners (one_updater/package_managers/base.py:36 and base.py:61) catch only `CalledProcessError`; an executable that cannot be started raises out of them, and out of the other backends, which is not modelled. pip's `upgrade` catches every exception, per package (pip.py:152-154, false and on to the next) and around the whole operation (pip.py:167-169, false); in the model a command that cannot be started is a reply with `ok == false`, which gives pip's loop the same false-and-continue behaviour.
- The file system, `os.path.expanduser` and `Path` are host inputs. Path joining follows `os.path.join` for two components; `Path` normalisation is not modelled.
- Configuration values are typed. A YAML value of another type (a string for `commands`, a null `commands`, a `package_managers` that is null) is not modelled.
- YAML anchors that make two managers share one map are not modelled, so a run's in-place overwrite cannot reach a second name.
- The `status` object is an opaque number: it is stored and never read.
- pip's JSON decoding is a host input giving the `name` of each record or a decoding error. A record without "name" (a `KeyError` caught by the outer handler, ending the loop) is not modelled.
- Whitespace and case are ASCII, plus U+0085 and U+00A0 as whitespace. Python's full Unicode tables are not modelled.
- Base.RunWithOutput: an empty argument vector is passed to the oracle like any other, where Python would raise an error that the source does not catch.
- Base.PathJoin: states only that the result ends with the last component; absolute second components and trailing slashes are handled in its body but not stated.
- Backends.Perform: states only the "no success without a process" property; each backend's own behaviour is stated by the members of its module.
- Base.LogName: its own contract states only that the result has no upper-case letter and what it is when "Manager" does not occur; that every "Manager" is removed from a class name is proved separately, for every registered class, by Registry.LogNameOfClass, Registry.NoCapitalM and Registry.MicroEditorLogName.
