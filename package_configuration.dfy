/**
 * The packaging configuration record, its two enums, and the file paths it holds.
 * Every reference field of the Java record may be null, so each is an Option here.
 */
module PackageConfigurations {
  import opened Wrappers
  import opened JavaStrings

  /** A `java.nio.file.Path` on a '/'-separated file system: absolute or not, and its names. */
  datatype Path = Path(absolute: bool, names: seq<string>)
  {
    /** `toString`: the names joined by '/', after a leading '/' when absolute. */
    function ToString(): string {
      (if absolute then "/" else "") + Join("/", names)
    }

    /** `getParent`: null for the root and for a relative path of one name. */
    function Parent(): (r: Option<Path>)
      ensures r.Some? ==> |names| >= 1 && r.value.absolute == absolute
      ensures r.Some? ==> names == r.value.names + [names[|names| - 1]]
    {
      if |names| == 0 || (|names| == 1 && !absolute) then None
      else Some(Path(absolute, names[..|names| - 1]))
    }

    /** `getFileName`: the last name as a relative path; null for the root, the empty path itself. */
    function FileName(): (r: Option<Path>)
      ensures |names| >= 1 ==> r == Some(Path(false, [names[|names| - 1]]))
    {
      if |names| >= 1 then Some(Path(false, [names[|names| - 1]]))
      else if absolute then None
      else Some(this)
    }

    /** `resolve(name)` for a single name. */
    function Resolve(name: string): (r: Path)
      ensures absolute || |names| >= 1 ==> r.Parent() == Some(this)
      ensures r.FileName() == Some(Path(false, [name]))
    {
      assert (names + [name])[..|names|] == names;
      Path(absolute, names + [name])
    }
  }

  /** `String.valueOf(path)`: "null" for a null path. */
  function PathText(p: Option<Path>): string {
    if p.Some? then p.value.ToString() else "null"
  }

  datatype TargetPlatform = Windows | MacOS | Linux | Current
  {
    function DisplayName(): string {
      match this
      case Windows => "Windows"
      case MacOS => "macOS"
      case Linux => "Linux"
      case Current => "Current Platform"
    }
  }

  const TargetPlatforms: seq<TargetPlatform> := [Windows, MacOS, Linux, Current]

  datatype OutputFormat = AppImage | Exe | Msi | Pkg | Dmg | Deb | Rpm
  {
    /** `name()`: the Java constant's identifier. */
    function Identifier(): string {
      match this
      case AppImage => "APP_IMAGE"
      case Exe => "EXE"
      case Msi => "MSI"
      case Pkg => "PKG"
      case Dmg => "DMG"
      case Deb => "DEB"
      case Rpm => "RPM"
    }

    function DisplayName(): string {
      match this
      case AppImage => "App Image"
      case Exe => "Windows Executable (.exe)"
      case Msi => "Windows Installer (.msi)"
      case Pkg => "macOS Package (.pkg)"
      case Dmg => "macOS Disk Image (.dmg)"
      case Deb => "Debian Package (.deb)"
      case Rpm => "Red Hat Package (.rpm)"
    }

    /** `getJPackageType`: the value jpackage takes after `--type`. */
    function JPackageType(): string {
      match this
      case AppImage => "app-image"
      case Exe => "exe"
      case Msi => "msi"
      case Pkg => "pkg"
      case Dmg => "dmg"
      case Deb => "deb"
      case Rpm => "rpm"
    }
  }

  const OutputFormats: seq<OutputFormat> := [AppImage, Exe, Msi, Pkg, Dmg, Deb, Rpm]

  /**
   * The Lombok record. `requiredModules` holds the module set in the order the set
   * iterates it (the order `String.join` sees); `jvmArgs` and `appArgs` are lists.
   */
  datatype PackageConfiguration = PackageConfiguration(
    jarFile: Option<Path>,
    appName: Option<string>,
    version: Option<string>,
    mainClass: Option<string>,
    iconFile: Option<Path>,
    outputDirectory: Option<Path>,
    targetPlatform: Option<TargetPlatform>,
    outputFormat: Option<OutputFormat>,
    enableJLink: bool,
    requiredModules: Option<seq<string>>,
    vendor: Option<string>,
    description: Option<string>,
    copyright: Option<string>,
    jvmArgs: Option<seq<string>>,
    appArgs: Option<seq<string>>)

  /** The record as `new PackageConfiguration()` or an empty builder leaves it. */
  const EmptyConfiguration: PackageConfiguration :=
    PackageConfiguration(None, None, None, None, None, None, None, None, false,
                         None, None, None, None, None, None)

  /** `x != null && !x.trim().isEmpty()`. */
  predicate HasText(s: Option<string>) {
    s.Some? && !IsBlank(s.value)
  }

  /** There are four platforms, listed once each; the current one reads "Current Platform". */
  lemma TargetPlatformTable(p: TargetPlatform)
    ensures |TargetPlatforms| == 4 && p in TargetPlatforms
    ensures forall i, j :: 0 <= i < j < |TargetPlatforms| ==> TargetPlatforms[i] != TargetPlatforms[j]
    ensures Current.DisplayName() == "Current Platform"
  {
  }

  /** `getJPackageType` covers all seven formats; only the app image is not its lower-cased identifier. */
  lemma {:induction false} JPackageTypeTable(f: OutputFormat)
    ensures |OutputFormats| == 7 && f in OutputFormats
    ensures f == AppImage ==> f.JPackageType() == "app-image"
    ensures f != AppImage ==> f.JPackageType() == Lower(f.Identifier())
  {
    match f
    case AppImage =>
    case Exe => assert Lower("EXE") == "exe";
    case Msi => assert Lower("MSI") == "msi";
    case Pkg => assert Lower("PKG") == "pkg";
    case Dmg => assert Lower("DMG") == "dmg";
    case Deb => assert Lower("DEB") == "deb";
    case Rpm => assert Lower("RPM") == "rpm";
  }

  /** Distinct formats give distinct type codes, so the code names the format. */
  lemma JPackageTypeInjective(f: OutputFormat, g: OutputFormat)
    requires f.JPackageType() == g.JPackageType()
    ensures f == g
  {
  }
}
