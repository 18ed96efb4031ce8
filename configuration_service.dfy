/**
 * The preset store: each preset `name` is the file `name + ".json"` in one preset
 * directory, held here as a map from file name to the configuration it holds (the
 * JSON mapping is taken to be lossless, so a file holds the configuration itself).
 */
module ConfigurationServices {
  import opened Wrappers
  import opened JavaStrings
  import opened PackageConfigurations

  /** The file that saving, loading and deleting the preset `name` address. */
  function PresetFile(name: string): (f: string)
    ensures |f| == |name| + 5 && f[..|name|] == name && EndsWith(f, ".json")
  {
    name + ".json"
  }

  /** Distinct presets live in distinct files. */
  lemma PresetFileInjective(a: string, b: string)
    requires PresetFile(a) == PresetFile(b)
    ensures a == b
  {
    assert a == PresetFile(a)[..|a|];
  }

  /** What `loadPreset` reports for a directory holding `files`. */
  function LoadFrom(files: map<string, PackageConfiguration>, name: string): (r: Result<PackageConfiguration, string>)
    ensures r.Failure? <==> PresetFile(name) !in files
    ensures r.Failure? ==> r.error == "Preset not found: " + name
  {
    if PresetFile(name) in files then Success(files[PresetFile(name)])
    else Failure("Preset not found: " + name)
  }

  /** Loading what was just saved gives it back. */
  lemma SaveThenLoad(files: map<string, PackageConfiguration>, name: string, config: PackageConfiguration)
    ensures LoadFrom(files[PresetFile(name) := config], name) == Success(config)
  {
  }

  /** Saving one preset leaves every other preset as it loads. */
  lemma SaveKeepsOthers(files: map<string, PackageConfiguration>, name: string, config: PackageConfiguration, other: string)
    requires other != name
    ensures LoadFrom(files[PresetFile(name) := config], other) == LoadFrom(files, other)
  {
    if PresetFile(other) == PresetFile(name) {
      PresetFileInjective(other, name);
    }
  }

  /** A deleted preset is not found; every other preset loads as before. */
  lemma DeleteThenLoad(files: map<string, PackageConfiguration>, name: string, other: string)
    ensures LoadFrom(files - {PresetFile(name)}, name) == Failure("Preset not found: " + name)
    ensures other != name ==> LoadFrom(files - {PresetFile(name)}, other) == LoadFrom(files, other)
  {
    if other != name && PresetFile(other) == PresetFile(name) {
      PresetFileInjective(other, name);
    }
  }

  /** `s.lastIndexOf(c)`: the index of the last `c`, or -1 when there is none. */
  function LastIndexOf(s: string, c: char): (i: int)
    ensures -1 <= i < |s|
    ensures i >= 0 ==> s[i] == c && forall j :: i < j < |s| ==> s[j] != c
    ensures i == -1 <==> c !in s
  {
    if |s| == 0 then -1
    else if s[|s| - 1] == c then |s| - 1
    else
      var i := LastIndexOf(s[..|s| - 1], c);
      assert c in s[..|s| - 1] <==> c in s;
      i
  }

  /** The preset name `getAvailablePresets` reads off a ".json" file name: the text before its last '.'. */
  function PresetNameOf(fileName: string): (name: string)
    requires EndsWith(fileName, ".json")
  {
    assert fileName[|fileName| - 5] == '.';
    fileName[..LastIndexOf(fileName, '.')]
  }

  /** The name of a preset's file is the preset's name: "json" holds no '.'. */
  lemma PresetNameOfFile(name: string)
    ensures PresetNameOf(PresetFile(name)) == name
  {
    var f := PresetFile(name);
    assert f[|name|] == '.';
    assert forall j :: |name| < j < |f| ==> f[j] != '.' by {
      assert f[|name| + 1..] == "json";
    }
  }

  /** The names `getAvailablePresets` lists for a directory listed in the order `listing`. */
  function PresetNames(listing: seq<string>): (r: seq<string>)
    ensures |r| <= |listing|
  {
    if |listing| == 0 then []
    else
      var prev := PresetNames(listing[..|listing| - 1]);
      var f := listing[|listing| - 1];
      if EndsWith(f, ".json") then prev + [PresetNameOf(f)] else prev
  }

  /** A name is listed exactly when a ".json" file in the listing carries it. */
  lemma {:induction false} PresetNamesMembers(listing: seq<string>, name: string)
    ensures name in PresetNames(listing) <==>
      exists k :: 0 <= k < |listing| && EndsWith(listing[k], ".json") && PresetNameOf(listing[k]) == name
  {
    if |listing| > 0 {
      var init := listing[..|listing| - 1];
      PresetNamesMembers(init, name);
      assert forall k :: 0 <= k < |init| ==> init[k] == listing[k];
    }
  }

  /** Every saved preset's name is listed back unchanged. */
  lemma SavedPresetListed(listing: seq<string>, name: string)
    requires PresetFile(name) in listing
    ensures name in PresetNames(listing)
  {
    var k :| 0 <= k < |listing| && listing[k] == PresetFile(name);
    PresetNameOfFile(name);
    PresetNamesMembers(listing, name);
  }

  /** `getDefaultConfiguration`: the current platform, an app image, no jlink, and nothing else set. */
  function DefaultConfiguration(): (c: PackageConfiguration)
    ensures c.targetPlatform == Some(Current) && c.outputFormat == Some(AppImage) && !c.enableJLink
    ensures c.jarFile.None? && c.appName.None? && c.version.None? && c.mainClass.None?
    ensures c.iconFile.None? && c.outputDirectory.None? && c.requiredModules.None?
    ensures c.vendor.None? && c.description.None? && c.copyright.None?
    ensures c.jvmArgs.None? && c.appArgs.None?
  {
    EmptyConfiguration.(targetPlatform := Some(Current), outputFormat := Some(AppImage), enableJLink := false)
  }

  /**
   * `ConfigurationService`: the preset directory, which may be missing (when it
   * could not be created), and the files it holds.
   */
  class ConfigurationService {
    var directoryExists: bool
    var files: map<string, PackageConfiguration>

    predicate Valid()
      reads this
    {
      !directoryExists ==> files == map[]
    }

    /** The directory is created if need be; `directory` is None when it still does not exist. */
    constructor(directory: Option<map<string, PackageConfiguration>>)
      ensures Valid()
      ensures directoryExists == directory.Some?
      ensures files == if directory.Some? then directory.value else map[]
    {
      directoryExists := directory.Some?;
      files := if directory.Some? then directory.value else map[];
    }

    /**
     * `savePreset`: writes the file `name + ".json"`. Writing fails (an IOException)
     * when the directory is missing, or when the name reaches into a sub-directory,
     * which the flat directory of this model does not have.
     */
    method SavePreset(name: string, config: PackageConfiguration) returns (saved: bool)
      requires Valid()
      modifies this`files
      ensures Valid()
      ensures saved <==> directoryExists && '/' !in name
      ensures saved ==> files == old(files)[PresetFile(name) := config]
      ensures !saved ==> files == old(files)
    {
      if !directoryExists || '/' in name {
        return false;
      }
      files := files[PresetFile(name) := config];
      return true;
    }

    /** `loadPreset`: the configuration in `name + ".json"`, or "Preset not found: " + name. */
    method LoadPreset(name: string) returns (r: Result<PackageConfiguration, string>)
      ensures r == LoadFrom(files, name)
    {
      var presetFile := name + ".json";
      if presetFile !in files {
        return Failure("Preset not found: " + name);
      }
      return Success(files[presetFile]);
    }

    /** `deletePreset`: removes `name + ".json"` if it exists; otherwise nothing happens. */
    method DeletePreset(name: string)
      requires Valid()
      modifies this`files
      ensures Valid()
      ensures files == old(files) - {PresetFile(name)}
      ensures PresetFile(name) !in old(files) ==> files == old(files)
    {
      var presetFile := name + ".json";
      if presetFile in files {
        files := files - {presetFile};
      }
    }

    /**
     * `getAvailablePresets`: the names of the ".json" files, in the order the
     * directory is listed (`listing`, which enumerates the files); empty when the
     * directory is missing or listing it fails.
     */
    method GetAvailablePresets(listing: seq<string>, listingFails: bool) returns (presets: seq<string>)
      requires forall f :: f in listing <==> f in files
      ensures presets == if directoryExists && !listingFails then PresetNames(listing) else []
      ensures forall name :: PresetFile(name) in files && directoryExists && !listingFails ==> name in presets
    {
      presets := [];
      if directoryExists && !listingFails {
        for k := 0 to |listing|
          invariant presets == PresetNames(listing[..k])
        {
          var fileName := listing[k];
          assert listing[..k + 1][..k] == listing[..k];
          if EndsWith(fileName, ".json") {
            assert fileName[|fileName| - 5] == '.';
            presets := presets + [fileName[..LastIndexOf(fileName, '.')]];
          }
        }
        assert listing[..|listing|] == listing;
        forall name | PresetFile(name) in files ensures name in presets {
          SavedPresetListed(listing, name);
        }
      }
    }
  }
}
