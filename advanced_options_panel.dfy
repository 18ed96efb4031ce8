/**
 * The advanced options panel: the jlink switch, the list of modules with its
 * selection, the custom-module field, and the JVM and application argument texts,
 * one argument per line.
 */
module AdvancedOptionsPanels {
  import opened Wrappers
  import opened JavaStrings
  import opened ModuleLists

  /** The modules the list starts with, in the order shown. */
  const CommonModules: seq<string> := [
    "java.base",
    "java.desktop",
    "java.logging",
    "java.xml",
    "java.prefs",
    "java.net.http",
    "java.management",
    "java.security.sasl",
    "java.naming",
    "java.sql",
    "java.rmi",
    "java.scripting",
    "java.compiler",
    "java.instrument",
    "jdk.unsupported"
  ]

  /** The initial list holds fifteen distinct modules, java.base first. */
  lemma CommonModulesDistinct()
    ensures |CommonModules| == 15 && Distinct(CommonModules)
    ensures CommonModules[0] == "java.base" && "jdk.unsupported" in CommonModules
  {
    forall i, j | 0 <= i < j < |CommonModules| ensures CommonModules[i] != CommonModules[j] {
      var a, b := CommonModules[i], CommonModules[j];
      assert |a| != |b| || a[5] != b[5] || a[6] != b[6] || a[7] != b[7] || a[8] != b[8];
    }
  }

  /** The arguments read off an argument text: none when it is blank, else its trimmed lines. */
  function ArgsOf(text: string): (args: seq<string>)
    ensures args == [] <==> Trim(text) == ""
    ensures forall a, j :: a in args && 0 <= j < |a| ==> a[j] != '\n'
  {
    var t := Trim(text);
    if t == "" then []
    else
      SplitKeepsPieces(t, '\n');
      Split(t, Char('\n'))
  }

  /** The text written for an argument list: empty for null or no arguments, else one per line. */
  function ArgsText(args: Option<seq<string>>): (text: string)
    ensures args.None? || args.value == [] ==> text == ""
  {
    if args.None? || args.value == [] then "" else Join("\n", args.value)
  }

  /**
   * An argument list the text keeps: no argument holds a line break, and the first
   * and last begin and end with a char that trimming keeps.
   */
  predicate KeptByText(args: seq<string>) {
    && |args| >= 1
    && (forall a, j :: a in args && 0 <= j < |a| ==> a[j] != '\n')
    && args[0] != "" && !IsTrimmable(args[0][0])
    && args[|args| - 1] != "" && !IsTrimmable(args[|args| - 1][|args[|args| - 1]| - 1])
  }

  /** Setting the arguments and reading them back gives them back, when the text keeps them. */
  lemma ArgsRoundTrip(args: seq<string>)
    requires args == [] || KeptByText(args)
    ensures ArgsOf(ArgsText(Some(args))) == args
  {
    if args != [] {
      var text := Join("\n", args);
      JoinKeptByTrim(args);
      ArgsOfTrimmed(text);
      SplitJoin(args, "\n", Char('\n'));
    }
  }

  /** Trimming leaves the joined text of a kept list alone. */
  lemma JoinKeptByTrim(args: seq<string>)
    requires KeptByText(args)
    ensures Join("\n", args) != "" && Trim(Join("\n", args)) == Join("\n", args)
  {
    var text := Join("\n", args);
    var last := args[|args| - 1];
    JoinStartsWithFirst("\n", args);
    JoinEndsWithLast("\n", args);
    assert text[0] == args[0][0];
    assert text[|text| - 1] == last[|last| - 1];
  }

  /** A non-empty text that trimming leaves alone is read as its lines. */
  lemma ArgsOfTrimmed(text: string)
    requires text != "" && Trim(text) == text
    ensures ArgsOf(text) == Split(text, Char('\n'))
  {
  }

  /** Reading the arguments and writing them back gives the text trimmed. */
  lemma TextRoundTrip(text: string)
    ensures ArgsText(Some(ArgsOf(text))) == Trim(text)
  {
    var t := Trim(text);
    if t != "" {
      JoinSplit(t, '\n');
    }
  }

  /** Blank lines inside the text are kept as empty arguments. */
  lemma BlankLinesKept(a: string, b: string)
    requires KeptByText([a, b])
    ensures ArgsOf(a + "\n\n" + b) == [a, "", b]
  {
    var xs := [a, "", b];
    assert xs[1..] == ["", b] && xs[1..][1..] == [b];
    assert Join("\n", xs[1..]) == "" + "\n" + b;
    assert Join("\n", xs) == a + "\n\n" + b;
    assert forall x, j :: x in xs && 0 <= j < |x| ==> x[j] != '\n';
    ArgsRoundTrip(xs);
  }

  /** `AdvancedOptionsPanel`: the panel state the modelled code reads and writes. */
  class AdvancedOptionsPanel {
    var jlinkEnabled: bool
    var items: seq<string>
    var selected: set<string>
    var customModule: string
    var jvmText: string
    var appText: string

    /** The listed modules are distinct, and only listed modules are selected. */
    predicate Valid()
      reads this
    {
      Distinct(items) && forall m :: m in selected ==> m in items
    }

    /** The panel as built: jlink off, the common modules listed, nothing selected, empty texts. */
    constructor()
      ensures Valid()
      ensures !jlinkEnabled && items == CommonModules && selected == {}
      ensures customModule == "" && jvmText == "" && appText == ""
    {
      CommonModulesDistinct();
      jlinkEnabled := false;
      items := CommonModules;
      selected := {};
      customModule := "";
      jvmText := "";
      appText := "";
    }

    /** `addCustomModule`: the trimmed text is listed, and the field cleared, when it is non-empty and new. */
    method AddCustomModule()
      requires Valid()
      modifies this`items, this`customModule
      ensures Valid()
      ensures IsNewModule(Trim(old(customModule)), old(items)) ==>
        items == old(items) + [Trim(old(customModule))] && customModule == ""
      ensures !IsNewModule(Trim(old(customModule)), old(items)) ==>
        items == old(items) && customModule == old(customModule)
    {
      var m := Trim(customModule);
      if m != "" && m !in items {
        DistinctSnoc(items, m);
        items := items + [m];
        customModule := "";
      }
    }

    method IsJLinkEnabled() returns (enabled: bool)
      ensures enabled == jlinkEnabled
    {
      enabled := jlinkEnabled;
    }

    method SetJLinkEnabled(enabled: bool)
      modifies this`jlinkEnabled
      ensures jlinkEnabled == enabled
    {
      jlinkEnabled := enabled;
    }

    /** `getSelectedModules`: the selected names, as a set. */
    method GetSelectedModules() returns (modules: set<string>)
      requires Valid()
      ensures modules == selected
      ensures forall m :: m in modules ==> m in items
    {
      modules := selected;
    }

    /**
     * `setSelectedModules`: the selection is cleared; then each module given (in the
     * set's iteration order `modules`) is selected, and appended first when it is not
     * listed. A null set leaves the selection empty and the list as it was.
     */
    method SetSelectedModules(modules: Option<seq<string>>)
      requires Valid()
      modifies this`items, this`selected
      ensures Valid()
      ensures modules.None? ==> items == old(items) && selected == {}
      ensures modules.Some? ==> items == AppendMissing(old(items), modules.value)
      ensures modules.Some? ==> selected == set m | m in modules.value
    {
      selected := {};
      if modules.Some? {
        var ms := modules.value;
        for k := 0 to |ms|
          invariant items == AppendMissing(old(items), ms[..k])
          invariant Distinct(items)
          invariant forall m :: m in selected <==> m in ms[..k]
          invariant forall m :: m in ms[..k] ==> m in items
        {
          assert ms[..k + 1] == ms[..k] + [ms[k]];
          var index := IndexOf(items, ms[k]);
          if index >= 0 {
            selected := selected + {ms[k]};
          } else {
            DistinctSnoc(items, ms[k]);
            items := items + [ms[k]];
            selected := selected + {ms[k]};
          }
        }
        assert ms[..|ms|] == ms;
      }
    }

    /** `getJvmArgs`. */
    method GetJvmArgs() returns (args: seq<string>)
      ensures args == ArgsOf(jvmText)
    {
      var text := Trim(jvmText);
      if text == "" {
        return [];
      }
      args := Split(text, Char('\n'));
    }

    /** `getAppArgs`. */
    method GetAppArgs() returns (args: seq<string>)
      ensures args == ArgsOf(appText)
    {
      var text := Trim(appText);
      if text == "" {
        return [];
      }
      args := Split(text, Char('\n'));
    }

    /** `setJvmArgs`. */
    method SetJvmArgs(args: Option<seq<string>>)
      modifies this`jvmText
      ensures jvmText == ArgsText(args)
    {
      if args.None? || args.value == [] {
        jvmText := "";
      } else {
        jvmText := Join("\n", args.value);
      }
    }

    /** `setAppArgs`. */
    method SetAppArgs(args: Option<seq<string>>)
      modifies this`appText
      ensures appText == ArgsText(args)
    {
      if args.None? || args.value == [] {
        appText := "";
      } else {
        appText := Join("\n", args.value);
      }
    }

    /** `reset`: jlink off, nothing selected, the field and both texts empty; the list is kept. */
    method Reset()
      requires Valid()
      modifies this`jlinkEnabled, this`selected, this`customModule, this`jvmText, this`appText
      ensures Valid()
      ensures !jlinkEnabled && selected == {} && customModule == "" && jvmText == "" && appText == ""
    {
      jlinkEnabled := false;
      selected := {};
      customModule := "";
      jvmText := "";
      appText := "";
    }
  }
}
