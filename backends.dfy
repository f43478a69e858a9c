/** The operations of a constructed backend, dispatched on its class: the
    `update()` and `upgrade()` every `PackageManager` subclass provides. */
module Backends {
  import opened Base
  import opened Registry
  import Simple
  import KeyGated
  import Go
  import Pip
  import Cargo
  import Basher

  /** What `pm.update()` / `pm.upgrade()` answers and issues. Every backend
      but go's `update` answers true only after starting at least one
      process: a success is never reported for a tool that was not probed. */
  function Perform(m: Manager, op: Op, host: Host): (e: Exec)
    ensures e.ok && e.trace == [] ==> m.cls == GoManager && op == Update
  {
    var s, run := m.settings, host.run;
    match m.cls
    case AptManager => Simple.Perform(Simple.Apt, s, op, run)
    case HomebrewManager => Simple.Perform(Simple.Brew, s, op, run)
    case NpmManager => Simple.Perform(Simple.Npm, s, op, run)
    case PipxManager => Simple.Perform(Simple.Pipx, s, op, run)
    case KubectlKrewManager => Simple.Perform(Simple.Krew, s, op, run)
    case TldrManager => Simple.Perform(Simple.Tldr, s, op, run)
    case GhCliManager => Simple.Perform(Simple.GhCli, s, op, run)
    case SnapManager => Simple.Perform(Simple.Snap, s, op, run)
    case PkgxManager => Simple.Perform(Simple.Pkgx, s, op, run)
    case MicroEditorManager => Simple.Perform(Simple.Micro, s, op, run)
    case UvManager => Simple.Perform(Simple.Uv, s, op, run)
    case GemManager => Simple.Perform(Simple.Gem, s, op, run)
    case VagrantPluginManager => Simple.Perform(Simple.Vagrant, s, op, run)
    case FlatpakManager => KeyGated.Perform(KeyGated.Flatpak, s, op, run)
    case PacmanManager => KeyGated.Perform(KeyGated.Pacman, s, op, run)
    case DnfManager => KeyGated.Perform(KeyGated.Dnf, s, op, run)
    case GoManager => if op == Update then Go.Update() else Go.UpgradeSpec(host)
    case PipManager => if op == Update then Pip.Update(s, host) else Pip.UpgradeSpec(s, host)
    case CargoManager => if op == Update then Cargo.Update(s, run) else Cargo.UpgradeSpec(s, run)
    case BasherManager => if op == Update then Basher.Update(s, run) else Basher.UpgradeSpec(s, run)
  }

  /** Runs the operation, using the loop methods of the backends that have
      loops. */
  method Execute(m: Manager, op: Op, host: Host) returns (ok: bool, trace: seq<Argv>)
    ensures Exec(ok, trace) == Perform(m, op, host)
  {
    if op == Upgrade {
      match m.cls
      case GoManager =>
        ok, trace := Go.Upgrade(host);
      case PipManager =>
        ok, trace := Pip.Upgrade(m.settings, host);
      case CargoManager =>
        ok, trace := Cargo.Upgrade(m.settings, host.run);
      case BasherManager =>
        ok, trace := Basher.Upgrade(m.settings, host.run);
      case _ =>
        var e := Perform(m, op, host);
        ok, trace := e.ok, e.trace;
    } else {
      var e := Perform(m, op, host);
      ok, trace := e.ok, e.trace;
    }
  }
}
