/**
 * The text heuristics of the desktop controller: the application name and version
 * guessed from a JAR file name, title-casing, the output folder name, the vendor
 * guessed from a main-class package, and the modules list that is extended and
 * re-checked in place.
 */
module MainControllers {
  import opened Wrappers
  import opened JavaStrings
  import opened PackageConfigurations
  import opened ModuleLists

  // ---------------------------------------------------------------------------
  // JAR file name -> application name and version
  // ---------------------------------------------------------------------------

  /**
   * `fileName.toLowerCase().endsWith(".jar")`. Only ASCII letters lower-case to
   * 'j', 'a' or 'r', so the ASCII mapping decides this exactly.
   */
  predicate HasJarSuffix(fileName: string) {
    EndsWith(Lower(fileName), ".jar")
  }

  /** The file name without a trailing ".jar" in any letter case. */
  function JarStem(fileName: string): (stem: string)
    ensures HasJarSuffix(fileName) ==> |stem| == |fileName| - 4 && Lower(fileName[|stem|..]) == ".jar"
    ensures !HasJarSuffix(fileName) ==> stem == fileName
    ensures fileName == stem + fileName[|stem|..]
  {
    if HasJarSuffix(fileName) then
      assert Lower(fileName)[|fileName| - 4..] == Lower(fileName[|fileName| - 4..]);
      fileName[..|fileName| - 4]
    else fileName
  }

  /**
   * What `part.matches("\\d+(\\.\\d+)*.*")` accepts: the part starts with an ASCII
   * digit, and, as `.` matches no line terminator, holds none anywhere.
   */
  predicate IsVersionPart(part: string) {
    |part| > 0 && IsAsciiDigit(part[0]) && forall i :: 0 <= i < |part| ==> !IsLineTerminator(part[i])
  }

  /** The index of the rightmost version-like part among the first `n`, if any. */
  function LastVersionIndex(parts: seq<string>, n: nat): (r: Option<nat>)
    requires n <= |parts|
    ensures r.Some? ==> r.value < n && IsVersionPart(parts[r.value])
    ensures r.Some? ==> forall j :: r.value < j < n ==> !IsVersionPart(parts[j])
    ensures r.None? <==> forall j :: 0 <= j < n ==> !IsVersionPart(parts[j])
  {
    if n == 0 then None
    else if IsVersionPart(parts[n - 1]) then Some(n - 1)
    else LastVersionIndex(parts, n - 1)
  }

  datatype JarName = JarName(appName: string, version: string)

  /**
   * The raw application name and the version read off a JAR file name: the stem is
   * cut at '-', the rightmost version-like part is the version and the parts before
   * it, joined by '-', the name. With no dash, no version-like part, or nothing
   * before it, the whole stem is the name (a version found is still kept).
   */
  function JarNameParts(fileName: string): (r: JarName)
    ensures r.appName == "" <==> JarStem(fileName) == ""
    ensures r.version == "" || IsVersionPart(r.version)
    ensures r.version == "" ==> r.appName == JarStem(fileName)
  {
    var stem := JarStem(fileName);
    var parts := Split(stem, Char('-'));
    if |parts| < 2 then JarName(stem, "")
    else
      match LastVersionIndex(parts, |parts|)
      case None => JarName(stem, "")
      case Some(i) =>
        var name := Join("-", parts[..i]);
        JarName(if name == "" then stem else name, parts[i])
  }

  /** The first half of `populateFieldsFromJarFile`: the reverse scan for a version. */
  method SplitJarFileName(fileName: string) returns (appName: string, version: string)
    ensures JarName(appName, version) == JarNameParts(fileName)
  {
    var stem := fileName;
    if HasJarSuffix(fileName) {
      stem := fileName[..|fileName| - 4];
    }
    appName := "";
    version := "";
    var parts := Split(stem, Char('-'));
    if |parts| >= 2 {
      var i := |parts| - 1;
      while i >= 0
        invariant -1 <= i < |parts|
        invariant appName == "" && version == ""
        invariant LastVersionIndex(parts, |parts|) == LastVersionIndex(parts, i + 1)
        decreases i + 1
      {
        if IsVersionPart(parts[i]) {
          version := parts[i];
          appName := Join("-", parts[..i]);
          break;
        }
        i := i - 1;
      }
      if appName == "" {
        appName := stem;
      }
    } else {
      appName := stem;
    }
  }

  /** A version exists exactly when the stem has two or more parts and one of them looks like a version. */
  lemma JarVersionFound(fileName: string)
    ensures var parts := Split(JarStem(fileName), Char('-'));
      JarNameParts(fileName).version != "" <==>
        |parts| >= 2 && exists i :: 0 <= i < |parts| && IsVersionPart(parts[i])
  {
    var parts := Split(JarStem(fileName), Char('-'));
    if |parts| >= 2 {
      var found := LastVersionIndex(parts, |parts|);
      if found.Some? {
        assert parts[found.value] != "";
      }
    }
  }

  /**
   * The version is the rightmost dash-separated part that looks like a version, and
   * the name is the parts before it joined by '-' (the whole stem when none precede it).
   */
  lemma JarNameFromRightmostVersion(fileName: string)
    ensures var r := JarNameParts(fileName); var stem := JarStem(fileName);
      var parts := Split(stem, Char('-'));
      r.version != "" ==> exists i ::
        && 0 <= i < |parts| && r.version == parts[i] && IsVersionPart(parts[i])
        && (forall j :: i < j < |parts| ==> !IsVersionPart(parts[j]))
        && r.appName == (if Join("-", parts[..i]) == "" then stem else Join("-", parts[..i]))
  {
    var stem := JarStem(fileName);
    var parts := Split(stem, Char('-'));
    if JarNameParts(fileName).version != "" {
      var i := LastVersionIndex(parts, |parts|).value;
      assert JarNameParts(fileName).version == parts[i];
    }
  }

  /**
   * When a version was found and a name precedes it, both are the stem's own text:
   * the stem starts with the name, a dash and the version.
   */
  lemma JarNameIsStemText(fileName: string)
    requires JarNameParts(fileName).version != ""
    requires JarNameParts(fileName).appName != JarStem(fileName)
    ensures var r := JarNameParts(fileName);
      StartsWith(JarStem(fileName), r.appName + "-" + r.version)
  {
    var stem := JarStem(fileName);
    var parts := Split(stem, Char('-'));
    var i := LastVersionIndex(parts, |parts|).value;
    assert i > 0;
    SplitPrefix(stem, '-', i);
  }

  // ---------------------------------------------------------------------------
  // Title-casing the application name
  // ---------------------------------------------------------------------------

  /** `name.replace("-", " ").replace("_", " ")`. */
  function Dehyphen(name: string): string {
    seq(|name|, i requires 0 <= i < |name| => if name[i] == '-' || name[i] == '_' then ' ' else name[i])
  }

  /** One word with its first char upper-cased and the rest lower-cased. */
  function TitleWord(word: string): (r: string)
    requires word != ""
  {
    [UpperChar(word[0])] + Lower(word[1..])
  }

  predicate AllNonEmpty(xs: seq<string>) {
    forall i :: 0 <= i < |xs| ==> xs[i] != ""
  }

  /** The non-empty elements, in order. */
  function NonEmpty(xs: seq<string>): (r: seq<string>)
    ensures AllNonEmpty(r)
    ensures forall i :: 0 <= i < |r| ==> r[i] in xs
    ensures forall w :: w in r <==> w in xs && w != ""
    ensures AllNonEmpty(xs) ==> r == xs
  {
    if |xs| == 0 then []
    else
      var init := xs[..|xs| - 1];
      var prev := NonEmpty(init);
      assert forall x :: x in init ==> x in xs;
      if xs[|xs| - 1] == "" then prev
      else
        assert xs == init + [xs[|xs| - 1]];
        prev + [xs[|xs| - 1]]
  }

  /** Skipping empty words goes element by element: the kept words of a concatenation are concatenated. */
  lemma {:induction false} NonEmptyAppend(xs: seq<string>, ys: seq<string>)
    ensures NonEmpty(xs + ys) == NonEmpty(xs) + NonEmpty(ys)
    decreases |ys|
  {
    if |ys| == 0 {
      assert xs + ys == xs;
    } else {
      var init := ys[..|ys| - 1];
      NonEmptyAppend(xs, init);
      assert (xs + ys)[..|xs + ys| - 1] == xs + init;
      assert (xs + ys)[|xs + ys| - 1] == ys[|ys| - 1];
    }
  }

  /** A single word is kept exactly when it is not empty. */
  lemma NonEmptyOne(w: string)
    ensures NonEmpty([w]) == if w == "" then [] else [w]
  {
    assert [w][..0] == [];
  }

  /** Every word title-cased, one for one. */
  function TitleAll(words: seq<string>): (r: seq<string>)
    requires AllNonEmpty(words)
    ensures |r| == |words|
    ensures forall i :: 0 <= i < |words| ==> r[i] == TitleWord(words[i])
  {
    seq(|words|, i requires 0 <= i < |words| => TitleWord(words[i]))
  }

  /**
   * `formatApplicationName`: dashes and underscores become spaces, the text is cut
   * at whitespace, and the non-empty words are title-cased and joined by single
   * spaces. (The source cuts at runs of `\s`; cutting at single chars yields the
   * same non-empty words, only more empty ones, which are skipped.)
   */
  function FormattedName(name: string): string {
    Join(" ", TitleAll(Words(name)))
  }

  /** The non-empty words of a name once dashes and underscores are spaces. */
  function Words(name: string): seq<string> {
    NonEmpty(Split(Dehyphen(name), Whitespace))
  }

  /** One turn of the formatting loop: an empty word adds nothing, another adds its title-cased form. */
  lemma TitledPrefixStep(words: seq<string>, k: nat)
    requires k < |words|
    ensures words[k] == "" ==> TitleAll(NonEmpty(words[..k + 1])) == TitleAll(NonEmpty(words[..k]))
    ensures words[k] != "" ==>
      TitleAll(NonEmpty(words[..k + 1])) == TitleAll(NonEmpty(words[..k])) + [TitleWord(words[k])]
  {
    assert words[..k + 1][..k] == words[..k];
  }

  /** The join grows by a space and the word, the space only after a first word. */
  lemma JoinTitledSnoc(titled: seq<string>, word: string)
    requires AllNonEmpty(titled) && word != ""
    ensures var j := Join(" ", titled);
      Join(" ", titled + [TitleWord(word)]) ==
        (if |j| > 0 then j + " " else j) + [UpperChar(word[0])] + (if |word| > 1 then Lower(word[1..]) else "")
  {
    JoinSnoc(" ", titled, TitleWord(word));
    if |titled| > 0 {
      JoinStartsWithFirst(" ", titled);
    }
  }

  method FormatApplicationName(name: string) returns (formatted: string)
    ensures formatted == FormattedName(name)
  {
    var replaced := Dehyphen(name);
    var words := Split(replaced, Whitespace);
    formatted := "";
    for k := 0 to |words|
      invariant formatted == Join(" ", TitleAll(NonEmpty(words[..k])))
    {
      var word := words[k];
      TitledPrefixStep(words, k);
      if word != "" {
        JoinTitledSnoc(TitleAll(NonEmpty(words[..k])), word);
        if |formatted| > 0 {
          formatted := formatted + " ";
        }
        formatted := formatted + [UpperChar(word[0])];
        if |word| > 1 {
          formatted := formatted + Lower(word[1..]);
        }
      }
    }
    assert words[..|words|] == words;
  }

  /** Chars a formatted word never holds: whitespace, dashes, underscores. */
  predicate IsWordChar(c: char) {
    !IsRegexSpace(c) && c != '-' && c != '_'
  }

  /** A non-empty word of word chars. */
  predicate IsWord(w: string) {
    w != "" && forall j :: 0 <= j < |w| ==> IsWordChar(w[j])
  }

  lemma TitleWordChars(word: string)
    requires IsWord(word)
    ensures IsWord(TitleWord(word))
    ensures TitleWord(TitleWord(word)) == TitleWord(word)
  {
    var t := TitleWord(word);
    forall j | 0 <= j < |t| ensures IsWordChar(t[j]) {
      if j > 0 {
        assert t[j] == LowerChar(word[j]);
      }
    }
  }

  /** No dash and no underscore anywhere. */
  predicate NoDashes(s: string) {
    forall i :: 0 <= i < |s| ==> s[i] != '-' && s[i] != '_'
  }

  /** Whitespace only as single spaces between other chars: never first, never last, never two in a row. */
  predicate SingleSpaced(s: string) {
    forall i :: 0 <= i < |s| && IsRegexSpace(s[i]) ==>
      s[i] == ' ' && 0 < i < |s| - 1 && !IsRegexSpace(s[i - 1]) && !IsRegexSpace(s[i + 1])
  }

  lemma WordShape(w: string)
    requires IsWord(w)
    ensures NoDashes(w) && SingleSpaced(w)
  {
  }

  lemma SpacedConcat(a: string, b: string)
    requires a != "" && NoDashes(a) && SingleSpaced(a) && !IsRegexSpace(a[|a| - 1])
    requires b != "" && NoDashes(b) && SingleSpaced(b) && !IsRegexSpace(b[0])
    ensures NoDashes(a + " " + b) && SingleSpaced(a + " " + b)
  {
    var r := a + " " + b;
    forall i | 0 <= i < |r|
      ensures r[i] != '-' && r[i] != '_'
      ensures IsRegexSpace(r[i]) ==>
        r[i] == ' ' && 0 < i < |r| - 1 && !IsRegexSpace(r[i - 1]) && !IsRegexSpace(r[i + 1])
    {
      if i < |a| {
        assert r[i] == a[i];
        if IsRegexSpace(r[i]) {
          assert r[i - 1] == a[i - 1] && r[i + 1] == a[i + 1];
        }
      } else if i > |a| {
        assert r[i] == b[i - |a| - 1];
        if IsRegexSpace(r[i]) {
          assert r[i - 1] == b[i - |a| - 2] && r[i + 1] == b[i - |a|];
        }
      }
    }
  }

  /** Words joined by single spaces: no dash, and whitespace only between words. */
  lemma {:induction false} JoinOfWords(words: seq<string>)
    requires forall k :: 0 <= k < |words| ==> IsWord(words[k])
    ensures NoDashes(Join(" ", words)) && SingleSpaced(Join(" ", words))
    ensures |words| > 0 ==>
      (Join(" ", words) != "" &&
       !IsRegexSpace(Join(" ", words)[0]) && !IsRegexSpace(Join(" ", words)[|Join(" ", words)| - 1]))
  {
    if |words| == 1 {
      WordShape(words[0]);
    } else if |words| > 1 {
      JoinOfWords(words[1..]);
      WordShape(words[0]);
      SpacedConcat(words[0], Join(" ", words[1..]));
    }
  }

  /** The words a name is cut into are words: non-empty, no whitespace, dash or underscore. */
  lemma SplitWords(name: string)
    ensures forall k :: 0 <= k < |Words(name)| ==> IsWord(Words(name)[k])
  {
    var d := Dehyphen(name);
    var parts := Split(d, Whitespace);
    var words := NonEmpty(parts);
    SplitCharsFrom(d, Whitespace);
    forall k | 0 <= k < |words| ensures IsWord(words[k]) {
      var w := words[k];
      assert w in parts;
      forall j | 0 <= j < |w| ensures IsWordChar(w[j]) {
        assert w[j] in d;
      }
    }
  }

  /** The title-cased words of a name, which `FormattedName` joins. */
  lemma TitledWords(name: string)
    ensures forall k :: 0 <= k < |Words(name)| ==>
      IsWord(TitleAll(Words(name))[k]) && TitleWord(TitleAll(Words(name))[k]) == TitleAll(Words(name))[k]
  {
    var words := Words(name);
    SplitWords(name);
    forall k | 0 <= k < |words| ensures IsWord(TitleWord(words[k])) && TitleWord(TitleWord(words[k])) == TitleWord(words[k]) {
      TitleWordChars(words[k]);
    }
  }

  /**
   * A formatted name holds no dash or underscore, and whitespace only as single
   * spaces between words: no leading, trailing or doubled space.
   */
  lemma FormattedNameShape(name: string)
    ensures var r := FormattedName(name);
      NoDashes(r) && SingleSpaced(r) &&
      (r == "" || (r[0] != ' ' && r[|r| - 1] != ' ')) &&
      (forall i :: 0 <= i < |r| - 1 ==> !(r[i] == ' ' && r[i + 1] == ' '))
  {
    var titled := TitleAll(Words(name));
    TitledWords(name);
    assert forall k :: 0 <= k < |titled| ==> IsWord(titled[k]);
    JoinOfWords(titled);
  }

  /** Formatting a formatted name changes nothing. */
  lemma FormattedNameIdempotent(name: string)
    ensures FormattedName(FormattedName(name)) == FormattedName(name)
  {
    var titled := TitleAll(Words(name));
    TitledWords(name);
    WordsOfJoin(titled);
    assert TitleAll(titled) == titled;
  }

  /** Dehyphening a text without dashes or underscores changes nothing. */
  lemma DehyphenNoDashes(s: string)
    requires NoDashes(s)
    ensures Dehyphen(s) == s
  {
  }

  /** Cutting words joined by single spaces back into words gives them back. */
  lemma WordsOfJoin(titled: seq<string>)
    requires forall k :: 0 <= k < |titled| ==> IsWord(titled[k])
    ensures Words(Join(" ", titled)) == titled
  {
    var r := Join(" ", titled);
    JoinOfWords(titled);
    DehyphenNoDashes(r);
    SplitOfWords(titled);
    if |titled| == 0 {
      assert Words(r) == NonEmpty([""]);
    } else {
      assert AllNonEmpty(titled);
      assert Words(r) == NonEmpty(titled);
    }
  }

  lemma SplitOfWords(titled: seq<string>)
    requires forall k :: 0 <= k < |titled| ==> IsWord(titled[k])
    ensures Split(Join(" ", titled), Whitespace) == if |titled| == 0 then [""] else titled
  {
    if |titled| == 0 {
      assert !HasDelimiter("", Whitespace);
    } else {
      forall x, j | x in titled && 0 <= j < |x| ensures !Delimits(Whitespace, x[j]) {
        var k :| 0 <= k < |titled| && titled[k] == x;
        assert IsWord(titled[k]);
      }
      SplitJoin(titled, " ", Whitespace);
    }
  }

  // ---------------------------------------------------------------------------
  // Output folder, preset name
  // ---------------------------------------------------------------------------

  /** `s.replaceAll("\\s+", "")`. */
  function DropWhitespace(s: string): string {
    if |s| == 0 then ""
    else if IsRegexSpace(s[0]) then DropWhitespace(s[1..])
    else [s[0]] + DropWhitespace(s[1..])
  }

  /** Whitespace is not alphanumeric, so dropping it first changes nothing. */
  lemma {:induction false} KeepAlnumDropWhitespace(s: string)
    ensures KeepAlnum(DropWhitespace(s)) == KeepAlnum(s)
  {
    if |s| > 0 {
      KeepAlnumDropWhitespace(s[1..]);
      if !IsRegexSpace(s[0]) {
        assert ([s[0]] + DropWhitespace(s[1..]))[1..] == DropWhitespace(s[1..]);
      }
    }
  }

  /** The folder name of `setOutputDirectoryFromAppName`: the letters and digits of the name, then "BuildOutput". */
  function OutputFolderName(appName: string): (r: string)
    ensures r == KeepAlnum(appName) + "BuildOutput"
    ensures forall i :: 0 <= i < |r| ==> IsAsciiAlnum(r[i])
  {
    KeepAlnumDropWhitespace(appName);
    KeepAlnum(DropWhitespace(appName)) + "BuildOutput"
  }

  /** `Paths.get(home, "Desktop", folderName)`: the output folder inside the user's Desktop directory. */
  function OutputDirectory(home: Path, appName: string): (r: Path)
    ensures r.absolute == home.absolute
    ensures r.names == home.names + ["Desktop", OutputFolderName(appName)]
  {
    home.Resolve("Desktop").Resolve(OutputFolderName(appName))
  }

  /** The text `updatePresetNameField` writes: `None` leaves the field as it is. */
  function PresetNameFor(appName: string): (r: Option<string>)
    ensures r.Some? <==> !IsBlank(appName)
    ensures r.Some? ==> EndsWith(r.value, " Preset") && r.value[..|r.value| - 7] == Trim(appName)
    ensures r.Some? ==> r.value[0] != ' '
  {
    if IsBlank(appName) then None else Some(Trim(appName) + " Preset")
  }

  // ---------------------------------------------------------------------------
  // Vendor from the main-class package; first non-blank value
  // ---------------------------------------------------------------------------

  /**
   * `formatVendorName`: everything but ASCII letters and digits is removed (digits
   * stay), then the first char is upper-cased and the rest lower-cased; null when
   * nothing is left. Only ASCII letters remain, so the ASCII case mapping is Java's.
   */
  function FormatVendorName(vendor: Option<string>): (r: Option<string>)
    ensures r.Some? <==> vendor.Some? && exists i :: 0 <= i < |vendor.value| && IsAsciiAlnum(vendor.value[i])
  {
    if vendor.None? || IsBlank(vendor.value) then
      assert vendor.Some? ==> forall i :: 0 <= i < |vendor.value| ==> !IsAsciiAlnum(vendor.value[i]);
      None
    else
      var kept := KeepAlnum(vendor.value);
      KeepAlnumEmpty(vendor.value);
      if kept == "" then None else Some(TitleWord(kept))
  }

  /**
   * A formatted vendor is the letters and digits of the input, as many and equal
   * up to case, with only the first one possibly upper-case.
   */
  lemma FormatVendorNameShape(vendor: Option<string>)
    requires FormatVendorName(vendor).Some?
    ensures var v := FormatVendorName(vendor).value; var kept := KeepAlnum(vendor.value);
      && |v| == |kept| && Lower(v) == Lower(kept)
      && v != "" && !IsAsciiLower(v[0]) && (forall i :: 1 <= i < |v| ==> !IsAsciiUpper(v[i]))
      && (forall i :: 0 <= i < |v| ==> IsAsciiAlnum(v[i]))
  {
    var kept := KeepAlnum(vendor.value);
    TitleWordCase(kept);
  }

  /** Title-casing keeps the length and the letters up to case, and every char's class. */
  lemma TitleWordCase(w: string)
    requires w != ""
    ensures var t := TitleWord(w);
      && |t| == |w| && Lower(t) == Lower(w)
      && !IsAsciiLower(t[0]) && (forall i :: 1 <= i < |t| ==> !IsAsciiUpper(t[i]))
      && (forall i :: 0 <= i < |t| ==> (IsAsciiAlnum(t[i]) <==> IsAsciiAlnum(w[i])))
  {
    var t := TitleWord(w);
    assert Lower(t)[0] == Lower(w)[0];
    assert forall i :: 1 <= i < |t| ==> t[i] == LowerChar(w[i]);
  }

  lemma {:induction false} KeepAlnumEmpty(s: string)
    ensures KeepAlnum(s) == "" <==> forall i :: 0 <= i < |s| ==> !IsAsciiAlnum(s[i])
  {
    if |s| > 0 {
      KeepAlnumEmpty(s[1..]);
      assert forall i :: 1 <= i < |s| ==> s[1..][i - 1] == s[i];
    }
  }

  /** The package prefixes after which the second dot-part names the vendor. */
  predicate IsCommonPrefix(part: string) {
    var p := Lower(part);
    p == "com" || p == "org" || p == "net" || p == "io"
  }

  /**
   * `extractVendorFromMainClass`: cut the class name at '.'; with three or more parts
   * the vendor is the second part after com/org/net/io and the first otherwise; with
   * two parts it is the first; with one, or a null or blank name, there is none.
   */
  function ExtractVendorFromMainClass(mainClass: Option<string>): (r: Option<string>)
    ensures mainClass.None? || IsBlank(mainClass.value) ==> r.None?
    ensures mainClass.Some? && !IsBlank(mainClass.value) ==>
      var parts := Split(mainClass.value, Char('.'));
      && (|parts| < 2 ==> r.None?)
      && (|parts| >= 3 && IsCommonPrefix(parts[0]) ==> r == FormatVendorName(Some(parts[1])))
      && (|parts| == 2 || (|parts| >= 3 && !IsCommonPrefix(parts[0])) ==> r == FormatVendorName(Some(parts[0])))
  {
    if mainClass.None? || IsBlank(mainClass.value) then None
    else
      var parts := Split(mainClass.value, Char('.'));
      if |parts| >= 3 then
        if IsCommonPrefix(parts[0]) then FormatVendorName(Some(parts[1]))
        else FormatVendorName(Some(parts[0]))
      else if |parts| >= 2 then FormatVendorName(Some(parts[0]))
      else None
  }

  /** A vendor, when found, is a title-cased word of letters and digits from the first or second package part. */
  lemma VendorIsTitledWord(mainClass: Option<string>)
    requires ExtractVendorFromMainClass(mainClass).Some?
    ensures var v := ExtractVendorFromMainClass(mainClass).value;
      && v != "" && !IsAsciiLower(v[0])
      && forall i :: 0 <= i < |v| ==> IsAsciiAlnum(v[i]) && (i > 0 ==> !IsAsciiUpper(v[i]))
  {
    var parts := Split(mainClass.value, Char('.'));
    if ExtractVendorFromMainClass(mainClass) == FormatVendorName(Some(parts[0])) {
      FormatVendorNameShape(Some(parts[0]));
    } else {
      FormatVendorNameShape(Some(parts[1]));
    }
  }

  /** `getFirstNonNull`: the first value that is neither null nor blank, as given (untrimmed). */
  method GetFirstNonNull(values: seq<Option<string>>) returns (r: Option<string>)
    ensures r.Some? ==>
      exists k :: 0 <= k < |values| && values[k] == r && HasText(values[k]) &&
        (forall j :: 0 <= j < k ==> !HasText(values[j]))
    ensures r.None? <==> forall k :: 0 <= k < |values| ==> !HasText(values[k])
  {
    for k := 0 to |values|
      invariant forall j :: 0 <= j < k ==> !HasText(values[j])
    {
      var value := values[k];
      if value.Some? && !IsBlank(value.value) {
        return value;
      }
    }
    return None;
  }

  // ---------------------------------------------------------------------------
  // The form and its modules list
  // ---------------------------------------------------------------------------

  /**
   * The controller's form fields that the modelled code reads and writes. The check
   * model of the modules list is held as the set of checked items, which is the same
   * as the checked indices while the items are distinct.
   */
  class MainForm {
    var appName: string
    var version: string
    var vendor: string
    var outputDir: string
    var presetName: string
    var customModule: string
    var items: seq<string>
    var checked: set<string>

    predicate Valid()
      reads this
    {
      Distinct(items) && forall m :: m in checked ==> m in items
    }

    /** The form as it is set up: empty fields, and the suggested modules listed, none checked. */
    constructor(suggested: seq<string>)
      requires Distinct(suggested)
      ensures Valid()
      ensures items == suggested && checked == {}
      ensures appName == "" && version == "" && vendor == "" && outputDir == "" && presetName == "" && customModule == ""
    {
      appName := "";
      version := "";
      vendor := "";
      outputDir := "";
      presetName := "";
      customModule := "";
      items := suggested;
      checked := {};
    }

    /** `updatePresetNameField`: the trimmed name and " Preset", unless the name is blank. */
    method UpdatePresetNameField(name: string)
      modifies this`presetName
      ensures presetName == if PresetNameFor(name).Some? then PresetNameFor(name).value else old(presetName)
    {
      if !IsBlank(name) {
        presetName := Trim(name) + " Preset";
      }
    }

    /** `setOutputDirectoryFromAppName`: the folder name under the user's Desktop directory. */
    method SetOutputDirectoryFromAppName(name: string, home: Path)
      modifies this`outputDir
      ensures outputDir == OutputDirectory(home, name).ToString()
    {
      var folderName := KeepAlnum(DropWhitespace(name)) + "BuildOutput";
      outputDir := home.Resolve("Desktop").Resolve(folderName).ToString();
    }

    /**
     * `populateFieldsFromJarFile`: the name, output directory and preset name follow a
     * non-empty application name, the version is set when one was found, and the
     * vendor is always "DevDam".
     */
    method PopulateFieldsFromJarFile(fileName: string, home: Path)
      modifies this`appName, this`outputDir, this`presetName, this`version, this`vendor
      ensures JarNameParts(fileName).appName == "" ==>
        appName == old(appName) && outputDir == old(outputDir) && presetName == old(presetName)
      ensures JarNameParts(fileName).appName != "" ==>
        NamedFrom(FormattedName(JarNameParts(fileName).appName), home, old(presetName))
      ensures version == if JarNameParts(fileName).version != "" then JarNameParts(fileName).version else old(version)
      ensures vendor == "DevDam"
    {
      var name, found := SplitJarFileName(fileName);
      FillFromJarName(name, found, home);
    }

    /** The second half of `populateFieldsFromJarFile`: the fields set from the name and version read. */
    method FillFromJarName(name: string, found: string, home: Path)
      modifies this`appName, this`outputDir, this`presetName, this`version, this`vendor
      ensures name == "" ==> appName == old(appName) && outputDir == old(outputDir) && presetName == old(presetName)
      ensures name != "" ==> NamedFrom(FormattedName(name), home, old(presetName))
      ensures version == if found != "" then found else old(version)
      ensures vendor == "DevDam"
    {
      if name != "" {
        ApplyAppName(name, home);
      }
      if found != "" {
        version := found;
      }
      vendor := "DevDam";
    }

    /** The fields that follow the application name `name`, the preset name kept as `presetBefore` for a blank name. */
    predicate NamedFrom(name: string, home: Path, presetBefore: string)
      reads this
    {
      && appName == name
      && outputDir == OutputDirectory(home, name).ToString()
      && presetName == if PresetNameFor(name).Some? then PresetNameFor(name).value else presetBefore
    }

    /** The branch of `populateFieldsFromJarFile` for a non-empty raw application name. */
    method ApplyAppName(raw: string, home: Path)
      modifies this`appName, this`outputDir, this`presetName
      ensures NamedFrom(FormattedName(raw), home, old(presetName))
    {
      var name := FormatApplicationName(raw);
      appName := name;
      SetOutputDirectoryFromAppName(name, home);
      UpdatePresetNameField(name);
    }

    /**
     * `updateModulesList`: each required module not yet listed is appended, then the
     * checks are cleared and exactly the required modules are checked.
     */
    method UpdateModulesList(required: seq<string>)
      requires Valid()
      modifies this`items, this`checked
      ensures Valid()
      ensures items == AppendMissing(old(items), required)
      ensures checked == set m | m in required
    {
      for k := 0 to |required|
        modifies this`items
        invariant items == AppendMissing(old(items), required[..k])
        invariant Distinct(items)
        invariant forall m :: m in old(checked) ==> m in items
      {
        assert required[..k + 1][..k] == required[..k];
        if required[k] !in items {
          items := items + [required[k]];
        }
      }
      assert required[..|required|] == required;
      assert forall m :: m in required ==> m in items;
      checked := {};
      for k := 0 to |required|
        modifies this`checked
        invariant forall m :: m in checked <==> m in required[..k]
      {
        assert forall m :: m in required[..k + 1] <==> m in required[..k] || m == required[k];
        assert required[k] in required;
        if required[k] in items {
          checked := checked + {required[k]};
        }
      }
      assert required[..|required|] == required;
      assert checked == set m | m in required;
    }

    /** `addCustomModule`: the trimmed text is listed and checked if new and non-empty, and the field cleared. */
    method AddCustomModule()
      requires Valid()
      modifies this`items, this`checked, this`customModule
      ensures Valid()
      ensures IsNewModule(Trim(old(customModule)), old(items)) ==>
        items == old(items) + [Trim(old(customModule))] && checked == old(checked) + {Trim(old(customModule))} && customModule == ""
      ensures !IsNewModule(Trim(old(customModule)), old(items)) ==>
        items == old(items) && checked == old(checked) && customModule == old(customModule)
    {
      ListModule(Trim(customModule));
    }

    /** The body of `addCustomModule` for the trimmed text `m`. */
    method ListModule(m: string)
      requires Valid()
      modifies this`items, this`checked, this`customModule
      ensures Valid()
      ensures IsNewModule(m, old(items)) ==>
        items == old(items) + [m] && checked == old(checked) + {m} && customModule == ""
      ensures !IsNewModule(m, old(items)) ==>
        items == old(items) && checked == old(checked) && customModule == old(customModule)
    {
      if IsNewModule(m, items) {
        DistinctSnoc(items, m);
        items := items + [m];
        checked := checked + {m};
        customModule := "";
      }
    }
  }
}
