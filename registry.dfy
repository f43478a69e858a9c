/** The name-to-backend registry (one_updater/package_managers/registry.py). */
module Registry {
  import opened Text
  import opened Base

  /** Every backend class of the package, registered or not. */
  datatype ManagerClass =
    | AptManager | BasherManager | HomebrewManager | CargoManager | DnfManager
    | FlatpakManager | GemManager | GhCliManager | GoManager | KubectlKrewManager
    | MicroEditorManager | NpmManager | PacmanManager | PipManager | PipxManager
    | PkgxManager | SnapManager | TldrManager | UvManager | VagrantPluginManager

  function ClassName(c: ManagerClass): string {
    match c
    case AptManager => "AptManager"
    case BasherManager => "BasherManager"
    case HomebrewManager => "HomebrewManager"
    case CargoManager => "CargoManager"
    case DnfManager => "DnfManager"
    case FlatpakManager => "FlatpakManager"
    case GemManager => "GemManager"
    case GhCliManager => "GhCliManager"
    case GoManager => "GoManager"
    case KubectlKrewManager => "KubectlKrewManager"
    case MicroEditorManager => "MicroEditorManager"
    case NpmManager => "NpmManager"
    case PacmanManager => "PacmanManager"
    case PipManager => "PipManager"
    case PipxManager => "PipxManager"
    case PkgxManager => "PkgxManager"
    case SnapManager => "SnapManager"
    case TldrManager => "TldrManager"
    case UvManager => "UvManager"
    case VagrantPluginManager => "VagrantPluginManager"
  }

  /** `PackageManagerRegistry._managers`. */
  const Managers: map<string, ManagerClass> := map[
    "apt" := AptManager,
    "basher" := BasherManager,
    "brew" := HomebrewManager,
    "cargo" := CargoManager,
    "gem" := GemManager,
    "gh-cli" := GhCliManager,
    "go" := GoManager,
    "krew" := KubectlKrewManager,
    "micro" := MicroEditorManager,
    "npm" := NpmManager,
    "pip" := PipManager,
    "pipx" := PipxManager,
    "pkgx" := PkgxManager,
    "snap" := SnapManager,
    "tldr" := TldrManager,
    "vagrant" := VagrantPluginManager
  ]

  /** A constructed backend: its class and what its constructor derived
      from the configuration. */
  datatype Manager = Manager(cls: ManagerClass, settings: Settings)

  /** `get_manager`: an unregistered name is an error (a `ValueError` in the
      source) naming it; a registered one gives its class, constructed from
      the configuration as given. */
  function GetManager(name: string, cfg: Config): (r: Result<Manager, string>)
    ensures r.Err? <==> name !in Managers
    ensures r.Err? ==> r.error == "Unknown package manager: " + name
    ensures r.Ok? ==> r.value.cls == Managers[name] && r.value.settings == Init(cfg) && r.value.settings.config == cfg
  {
    if name !in Managers then Err("Unknown package manager: " + name)
    else Ok(Manager(Managers[name], Init(cfg)))
  }

  /** flatpak, pacman, dnf and uv have classes but no registered name, so
      asking for them is an error. */
  lemma Unregistered(cfg: Config)
    ensures GetManager("flatpak", cfg).Err? && GetManager("pacman", cfg).Err?
    ensures GetManager("dnf", cfg).Err? && GetManager("uv", cfg).Err?
  {
  }

  /** Some names differ from their class: "brew", "gh-cli", "krew", "micro"
      and "vagrant". */
  lemma NamedClasses(cfg: Config)
    ensures GetManager("brew", cfg).Ok? && GetManager("brew", cfg).value.cls == HomebrewManager
    ensures GetManager("gh-cli", cfg).Ok? && GetManager("gh-cli", cfg).value.cls == GhCliManager
    ensures GetManager("krew", cfg).Ok? && GetManager("krew", cfg).value.cls == KubectlKrewManager
    ensures GetManager("micro", cfg).Ok? && GetManager("micro", cfg).value.cls == MicroEditorManager
    ensures GetManager("vagrant", cfg).Ok? && GetManager("vagrant", cfg).value.cls == VagrantPluginManager
  {
  }

  /** Distinct registered names give distinct classes. */
  lemma RegistryInjective(a: string, b: string)
    requires a in Managers && b in Managers && a != b
    ensures Managers[a] != Managers[b]
  {
  }

  /** The name `_check_available` logs for a class `<X>Manager` in which
      "Manager" occurs only as that suffix (every class the registry knows)
      is `<X>` lowercased. */
  lemma LogNameOfClass(x: string)
    requires forall i :: 0 <= i < |x| ==> !StartsWith((x + "Manager")[i..], "Manager")
    ensures LogName(x + "Manager") == Lower(x)
  {
    RemoveOnlySuffix(x, "Manager");
  }

  /** A class name with no 'M' before the suffix qualifies. */
  lemma NoCapitalM(x: string)
    requires 'M' !in x
    ensures forall i :: 0 <= i < |x| ==> !StartsWith((x + "Manager")[i..], "Manager")
  {
    forall i | 0 <= i < |x|
      ensures !StartsWith((x + "Manager")[i..], "Manager")
    {
      assert (x + "Manager")[i..][0] == x[i];
      assert x[i] in x;
    }
  }

  /** In "MicroEditorManager", "Manager" occurs only as the suffix. */
  lemma MicroEditorSuffixOnly()
    ensures forall i :: 0 <= i < |"MicroEditor"| ==> !StartsWith(("MicroEditor" + "Manager")[i..], "Manager")
  {
    var x := "MicroEditor";
    forall i | 0 <= i < |x|
      ensures !StartsWith((x + "Manager")[i..], "Manager")
    {
      var t := (x + "Manager")[i..];
      assert t[0] == x[i];
      if i == 0 {
        assert t[1] == x[1] == 'i';
      }
    }
  }

  /** Hence the one class with an 'M' before the suffix logs as
      "microeditor". */
  lemma MicroEditorLogName()
    ensures ClassName(MicroEditorManager) == "MicroEditor" + "Manager"
    ensures LogName("MicroEditor" + "Manager") == Lower("MicroEditor")
  {
    MicroEditorSuffixOnly();
    LogNameOfClass("MicroEditor");
  }
}
