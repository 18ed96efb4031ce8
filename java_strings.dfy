/**
 * The parts of java.lang.String that the modelled code relies on, with Java's own
 * edge cases: `trim` strips every char up to U+0020, `split` drops trailing empty
 * pieces and returns the whole string when the delimiter does not occur, and the
 * case mappings are those of ASCII letters.
 */
module JavaStrings {

  // ---------------------------------------------------------------------------
  // Characters
  // ---------------------------------------------------------------------------

  /** The chars `String.trim` removes: every code point up to and including the space. */
  predicate IsTrimmable(c: char) { c <= ' ' }

  /** The class `\s` of java.util.regex (without UNICODE_CHARACTER_CLASS). */
  predicate IsRegexSpace(c: char) {
    c == ' ' || c == '\t' || c == '\n' || c == '\U{000B}' || c == '\U{000C}' || c == '\r'
  }

  /** Line terminators, which `.` in java.util.regex does not match by default. */
  predicate IsLineTerminator(c: char) {
    c == '\n' || c == '\r' || c == '\U{0085}' || c == '\U{2028}' || c == '\U{2029}'
  }

  predicate IsAsciiDigit(c: char) { '0' <= c <= '9' }
  predicate IsAsciiUpper(c: char) { 'A' <= c <= 'Z' }
  predicate IsAsciiLower(c: char) { 'a' <= c <= 'z' }

  /** The class `[a-zA-Z0-9]`. */
  predicate IsAsciiAlnum(c: char) { IsAsciiDigit(c) || IsAsciiUpper(c) || IsAsciiLower(c) }

  function UpperChar(c: char): (r: char)
    ensures IsAsciiLower(c) ==> IsAsciiUpper(r)
    ensures !IsAsciiLower(c) ==> r == c
    ensures !IsAsciiLower(r)
  {
    if IsAsciiLower(c) then (c as int - 32) as char else c
  }

  function LowerChar(c: char): (r: char)
    ensures IsAsciiUpper(c) ==> IsAsciiLower(r)
    ensures !IsAsciiUpper(c) ==> r == c
    ensures !IsAsciiUpper(r)
  {
    if IsAsciiUpper(c) then (c as int + 32) as char else c
  }

  /** `toUpperCase` restricted to ASCII letters: every other char is kept. */
  function Upper(s: string): (r: string)
    ensures |r| == |s|
    ensures forall i :: 0 <= i < |s| ==> r[i] == UpperChar(s[i])
  {
    seq(|s|, i requires 0 <= i < |s| => UpperChar(s[i]))
  }

  /** `toLowerCase` restricted to ASCII letters: every other char is kept. */
  function Lower(s: string): (r: string)
    ensures |r| == |s|
    ensures forall i :: 0 <= i < |s| ==> r[i] == LowerChar(s[i])
  {
    seq(|s|, i requires 0 <= i < |s| => LowerChar(s[i]))
  }

  // ---------------------------------------------------------------------------
  // Trimming and blankness
  // ---------------------------------------------------------------------------

  function TrimStart(s: string): (r: string)
    ensures |r| <= |s| && r == s[|s| - |r|..]
    ensures r == "" || !IsTrimmable(r[0])
    ensures forall i :: 0 <= i < |s| - |r| ==> IsTrimmable(s[i])
  {
    if |s| > 0 && IsTrimmable(s[0]) then TrimStart(s[1..]) else s
  }

  function TrimEnd(s: string): (r: string)
    ensures |r| <= |s| && r == s[..|r|]
    ensures r == "" || !IsTrimmable(r[|r| - 1])
    ensures forall i :: |r| <= i < |s| ==> IsTrimmable(s[i])
  {
    if |s| > 0 && IsTrimmable(s[|s| - 1]) then TrimEnd(s[..|s| - 1]) else s
  }

  /** `String.trim`: the longest infix that neither starts nor ends with a char up to U+0020. */
  function Trim(s: string): (r: string)
    ensures exists k :: OccursAt(s, r, k)
    ensures exists k ::
      && OccursAt(s, r, k)
      && (forall i :: 0 <= i < k ==> IsTrimmable(s[i]))
      && (forall i :: k + |r| <= i < |s| ==> IsTrimmable(s[i]))
    ensures r == "" || (!IsTrimmable(r[0]) && !IsTrimmable(r[|r| - 1]))
    ensures r == "" <==> forall i :: 0 <= i < |s| ==> IsTrimmable(s[i])
    ensures s == "" || (!IsTrimmable(s[0]) && !IsTrimmable(s[|s| - 1])) ==> r == s
  {
    var t := TrimStart(s);
    var r := TrimEnd(t);
    TrimWindow(s, t, r);
    r
  }

  /** Where the trimmed text sits in `s`, and that everything around it is trimmable. */
  lemma TrimWindow(s: string, t: string, r: string)
    requires |t| <= |s| && t == s[|s| - |t|..]
    requires forall i :: 0 <= i < |s| - |t| ==> IsTrimmable(s[i])
    requires |r| <= |t| && r == t[..|r|]
    requires forall i :: |r| <= i < |t| ==> IsTrimmable(t[i])
    requires r == "" || !IsTrimmable(r[0])
    ensures OccursAt(s, r, |s| - |t|)
    ensures forall i :: |s| - |t| + |r| <= i < |s| ==> IsTrimmable(s[i])
    ensures r == "" <==> forall i :: 0 <= i < |s| ==> IsTrimmable(s[i])
  {
    var k := |s| - |t|;
    assert s[k..k + |r|] == r;
    forall i | k + |r| <= i < |s| ensures IsTrimmable(s[i]) {
      assert s[i] == t[i - k];
    }
    if r != "" {
      assert r[0] == s[k];
    }
  }

  /** `s.trim().isEmpty()`: nothing but chars up to U+0020 (see `BlankIsTrimmedEmpty`). */
  predicate IsBlank(s: string) { forall i :: 0 <= i < |s| ==> IsTrimmable(s[i]) }

  lemma BlankIsTrimmedEmpty(s: string)
    ensures IsBlank(s) <==> Trim(s) == ""
  {
  }

  // ---------------------------------------------------------------------------
  // Searching
  // ---------------------------------------------------------------------------

  predicate StartsWith(s: string, prefix: string) {
    |prefix| <= |s| && s[..|prefix|] == prefix
  }

  predicate EndsWith(s: string, suffix: string) {
    |suffix| <= |s| && s[|s| - |suffix|..] == suffix
  }

  /** `t` occurs in `s` starting at offset `k`. */
  predicate OccursAt(s: string, t: string, k: int) {
    0 <= k && k + |t| <= |s| && s[k..k + |t|] == t
  }

  /** `s.contains(t)`: `t` occurs in `s` at some offset. */
  function Contains(s: string, t: string): (r: bool)
    ensures r <==> exists k :: OccursAt(s, t, k)
  {
    if |t| > |s| then false
    else if s[..|t|] == t then
      assert OccursAt(s, t, 0);
      true
    else
      var r := Contains(s[1..], t);
      assert r ==> exists k :: OccursAt(s, t, k) by {
        if r {
          var k :| OccursAt(s[1..], t, k);
          assert s[1..][k..k + |t|] == s[k + 1..k + 1 + |t|];
          assert OccursAt(s, t, k + 1);
        }
      }
      assert (exists k :: OccursAt(s, t, k)) ==> r by {
        if exists k :: OccursAt(s, t, k) {
          var k :| OccursAt(s, t, k);
          assert k != 0;
          assert s[1..][k - 1..k - 1 + |t|] == s[k..k + |t|];
          assert OccursAt(s[1..], t, k - 1);
        }
      }
      r
  }

  // ---------------------------------------------------------------------------
  // Joining and splitting
  // ---------------------------------------------------------------------------

  /** `String.join(sep, xs)`. */
  function Join(sep: string, xs: seq<string>): string
  {
    if |xs| == 0 then ""
    else if |xs| == 1 then xs[0]
    else xs[0] + sep + Join(sep, xs[1..])
  }

  /** Appending one element to a join adds the separator only after a non-empty list. */
  lemma {:induction false} JoinSnoc(sep: string, xs: seq<string>, x: string)
    ensures Join(sep, xs + [x]) == if |xs| == 0 then x else Join(sep, xs) + sep + x
  {
    if |xs| > 1 {
      assert (xs + [x])[1..] == xs[1..] + [x];
      JoinSnoc(sep, xs[1..], x);
    } else if |xs| == 1 {
      assert (xs + [x])[1..] == [x];
    }
  }

  /** A join cut before its `i`-th element: the first `i` joined, the separator, the rest joined. */
  lemma {:induction false} JoinAt(sep: string, xs: seq<string>, i: nat)
    requires 0 < i < |xs|
    ensures Join(sep, xs) == Join(sep, xs[..i]) + sep + Join(sep, xs[i..])
  {
    if i > 1 {
      JoinAt(sep, xs[1..], i - 1);
      assert xs[1..][..i - 1] == xs[..i][1..];
      assert xs[1..][i - 1..] == xs[i..];
    }
  }

  /** A join of a non-empty list starts with its first element. */
  lemma JoinStartsWithFirst(sep: string, xs: seq<string>)
    requires |xs| >= 1
    ensures StartsWith(Join(sep, xs), xs[0])
  {
    if |xs| > 1 {
      assert Join(sep, xs)[..|xs[0]|] == xs[0];
    }
  }

  /** What a delimiter of `String.split` matches: one fixed char, or one char of `\s`. */
  datatype Delimiter = Char(c: char) | Whitespace

  predicate Delimits(d: Delimiter, c: char) {
    match d
    case Char(x) => c == x
    case Whitespace => IsRegexSpace(c)
  }

  predicate HasDelimiter(s: string, d: Delimiter) {
    exists i :: 0 <= i < |s| && Delimits(d, s[i])
  }

  function FirstDelimiter(s: string, d: Delimiter): (i: nat)
    requires HasDelimiter(s, d)
    ensures i < |s| && Delimits(d, s[i])
    ensures forall j :: 0 <= j < i ==> !Delimits(d, s[j])
  {
    if Delimits(d, s[0]) then 0
    else
      assert HasDelimiter(s[1..], d) by {
        var i :| 0 <= i < |s| && Delimits(d, s[i]);
        assert s[1..][i - 1] == s[i];
      }
      1 + FirstDelimiter(s[1..], d)
  }

  /** Every piece between delimiter chars, empty pieces included. */
  function Pieces(s: string, d: Delimiter): (parts: seq<string>)
    ensures |parts| >= 1
    ensures forall p, j :: p in parts && 0 <= j < |p| ==> !Delimits(d, p[j])
    decreases |s|
  {
    if !HasDelimiter(s, d) then [s]
    else
      var i := FirstDelimiter(s, d);
      [s[..i]] + Pieces(s[i + 1..], d)
  }

  /** Every char of every piece is a char of the string cut. */
  lemma {:induction false} PiecesCharsFrom(s: string, d: Delimiter)
    ensures forall p, j :: p in Pieces(s, d) && 0 <= j < |p| ==> p[j] in s
    decreases |s|
  {
    if HasDelimiter(s, d) {
      var i := FirstDelimiter(s, d);
      PiecesCharsFrom(s[i + 1..], d);
      forall p, j | p in Pieces(s, d) && 0 <= j < |p| ensures p[j] in s {
        if p == s[..i] {
          assert s[j] == p[j];
        } else {
          assert p in Pieces(s[i + 1..], d);
          assert p[j] in s[i + 1..];
        }
      }
    }
  }

  /** Every char of every part of a split is a char of the string split. */
  lemma SplitCharsFrom(s: string, d: Delimiter)
    ensures forall p, j :: p in Split(s, d) && 0 <= j < |p| ==> p[j] in s
  {
    PiecesCharsFrom(s, d);
    if HasDelimiter(s, d) {
      var pieces := Pieces(s, d);
      assert forall p :: p in DropTrailingEmpty(pieces) ==> p in pieces;
    }
  }

  /** Pieces joined back with the one-char separator they were cut at give the string back. */
  lemma {:induction false} PiecesJoin(s: string, c: char)
    ensures Join([c], Pieces(s, Char(c))) == s
    decreases |s|
  {
    if HasDelimiter(s, Char(c)) {
      var i := FirstDelimiter(s, Char(c));
      var rest := Pieces(s[i + 1..], Char(c));
      PiecesJoin(s[i + 1..], c);
      assert Pieces(s, Char(c)) == [s[..i]] + rest;
      assert ([s[..i]] + rest)[1..] == rest;
      assert Join([c], [s[..i]] + rest) == s[..i] + [c] + Join([c], rest);
      assert s == s[..i] + [c] + s[i + 1..];
    }
  }

  /** The first delimiter of `a + [c] + b` is the `c`, when `a` holds none. */
  lemma FirstDelimiterAfter(a: string, c: char, b: string, d: Delimiter)
    requires forall j :: 0 <= j < |a| ==> !Delimits(d, a[j])
    requires Delimits(d, c)
    ensures HasDelimiter(a + [c] + b, d)
    ensures FirstDelimiter(a + [c] + b, d) == |a|
    ensures (a + [c] + b)[..|a|] == a && (a + [c] + b)[|a| + 1..] == b
  {
    var s := a + [c] + b;
    assert s[|a|] == c;
  }

  /** Cutting `a + [c] + b` at its first delimiter `c` gives `a`, then the pieces of `b`. */
  lemma PiecesAfterFirst(a: string, c: char, b: string, d: Delimiter)
    requires forall j :: 0 <= j < |a| ==> !Delimits(d, a[j])
    requires Delimits(d, c)
    ensures Pieces(a + [c] + b, d) == [a] + Pieces(b, d)
  {
    FirstDelimiterAfter(a, c, b, d);
  }

  /** One more leading element: cutting its join gives it, then the pieces of the rest. */
  lemma JoinPiecesCons(first: string, tail: seq<string>, sep: string, d: Delimiter)
    requires |tail| >= 1
    requires |sep| == 1 && Delimits(d, sep[0])
    requires forall j :: 0 <= j < |first| ==> !Delimits(d, first[j])
    requires Pieces(Join(sep, tail), d) == tail
    ensures Pieces(Join(sep, [first] + tail), d) == [first] + tail
  {
    var xs := [first] + tail;
    var rest := Join(sep, tail);
    assert xs[1..] == tail;
    assert Join(sep, xs) == first + [sep[0]] + rest by {
      assert sep == [sep[0]];
    }
    PiecesAfterFirst(first, sep[0], rest, d);
  }

  /** Cutting a join apart at its separator gives the joined pieces back. */
  lemma {:induction false} JoinPieces(xs: seq<string>, sep: string, d: Delimiter)
    requires |xs| >= 1
    requires |sep| == 1 && Delimits(d, sep[0])
    requires forall x, j :: x in xs && 0 <= j < |x| ==> !Delimits(d, x[j])
    ensures Pieces(Join(sep, xs), d) == xs
  {
    var first := xs[0];
    assert first in xs;
    if |xs| == 1 {
      assert Join(sep, xs) == first;
      assert !HasDelimiter(first, d);
    } else {
      var tail := xs[1..];
      forall x, j | x in tail && 0 <= j < |x| ensures !Delimits(d, x[j]) {
        assert x in xs;
      }
      JoinPieces(tail, sep, d);
      JoinPiecesCons(first, tail, sep, d);
      assert [first] + tail == xs;
    }
  }

  function DropTrailingEmpty(xs: seq<string>): (r: seq<string>)
    ensures |r| <= |xs| && r == xs[..|r|]
    ensures r == [] || r[|r| - 1] != ""
    ensures forall i :: |r| <= i < |xs| ==> xs[i] == ""
  {
    if |xs| > 0 && xs[|xs| - 1] == "" then DropTrailingEmpty(xs[..|xs| - 1]) else xs
  }

  /**
   * `s.split(regex)` for a regex that matches exactly one delimiter char: no match
   * gives `[s]`; otherwise the pieces, with trailing empty pieces removed (so a string
   * of delimiters alone gives the empty array).
   */
  function Split(s: string, d: Delimiter): (parts: seq<string>)
    ensures forall p, j :: p in parts && 0 <= j < |p| ==> !Delimits(d, p[j])
  {
    if !HasDelimiter(s, d) then [s] else DropTrailingEmpty(Pieces(s, d))
  }

  /** `split` undoes `join` when no element holds a delimiter and the last one is not empty. */
  lemma SplitJoin(xs: seq<string>, sep: string, d: Delimiter)
    requires |xs| >= 1 && xs[|xs| - 1] != ""
    requires |sep| == 1 && Delimits(d, sep[0])
    requires forall x, j :: x in xs && 0 <= j < |x| ==> !Delimits(d, x[j])
    ensures Split(Join(sep, xs), d) == xs
  {
    JoinPieces(xs, sep, d);
    if !HasDelimiter(Join(sep, xs), d) {
      assert Pieces(Join(sep, xs), d) == [Join(sep, xs)];
    }
  }

  /** A join of a non-empty list ends with its last element. */
  lemma JoinEndsWithLast(sep: string, xs: seq<string>)
    requires |xs| >= 1
    ensures EndsWith(Join(sep, xs), xs[|xs| - 1])
  {
    var init := xs[..|xs| - 1];
    assert xs == init + [xs[|xs| - 1]];
    JoinSnoc(sep, init, xs[|xs| - 1]);
  }

  /** The last piece is not empty when the string does not end at a delimiter. */
  lemma {:induction false} LastPieceNonEmpty(s: string, c: char)
    requires s != "" && s[|s| - 1] != c
    ensures var pieces := Pieces(s, Char(c)); pieces[|pieces| - 1] != ""
    decreases |s|
  {
    if HasDelimiter(s, Char(c)) {
      var i := FirstDelimiter(s, Char(c));
      var rest := s[i + 1..];
      assert rest[|rest| - 1] == s[|s| - 1];
      LastPieceNonEmpty(rest, c);
    }
  }

  /** A split at one char keeps every piece when the string does not end with that char. */
  lemma SplitKeepsPieces(s: string, c: char)
    requires s != "" && s[|s| - 1] != c
    ensures Split(s, Char(c)) == Pieces(s, Char(c)) && Split(s, Char(c)) != []
  {
    LastPieceNonEmpty(s, c);
  }

  /** `join` undoes `split` at one char when the string does not end with that char. */
  lemma JoinSplit(s: string, c: char)
    requires s != "" && s[|s| - 1] != c
    ensures Join([c], Split(s, Char(c))) == s
  {
    PiecesJoin(s, c);
    SplitKeepsPieces(s, c);
  }

  /**
   * The parts of a split are the string's own text: the first `i` parts joined by
   * the separator, the separator and part `i` begin the string.
   */
  lemma SplitPrefix(s: string, c: char, i: nat)
    requires 0 < i < |Split(s, Char(c))|
    ensures var parts := Split(s, Char(c));
      StartsWith(s, Join([c], parts[..i]) + [c] + parts[i])
  {
    var parts := Split(s, Char(c));
    var pieces := Pieces(s, Char(c));
    assert parts == pieces[..|parts|];
    PiecesJoin(s, c);
    JoinAt([c], pieces, i);
    assert pieces[..i] == parts[..i];
    JoinStartsWithFirst([c], pieces[i..]);
    var head := Join([c], parts[..i]) + [c];
    var rest := Join([c], pieces[i..]);
    assert s == head + rest;
    assert rest[..|parts[i]|] == parts[i];
    assert s[..|head| + |parts[i]|] == head + parts[i];
  }

  /** Cutting a string of separators alone gives nothing but empty pieces. */
  lemma {:induction false} PiecesOfSeparators(s: string, c: char)
    requires forall i :: 0 <= i < |s| ==> s[i] == c
    ensures forall p :: p in Pieces(s, Char(c)) ==> p == ""
    decreases |s|
  {
    if HasDelimiter(s, Char(c)) {
      var i := FirstDelimiter(s, Char(c));
      assert i == 0 by { assert Delimits(Char(c), s[0]); }
      PiecesOfSeparators(s[1..], c);
    } else if |s| > 0 {
      assert Delimits(Char(c), s[0]);
    }
  }

  /** Joining empty pieces with `c` gives nothing but `c`s. */
  lemma {:induction false} JoinOfEmpties(xs: seq<string>, c: char)
    requires forall x :: x in xs ==> x == ""
    ensures forall k :: 0 <= k < |Join([c], xs)| ==> Join([c], xs)[k] == c
  {
    if |xs| > 1 {
      assert xs[0] in xs;
      assert forall x :: x in xs[1..] ==> x in xs;
      JoinOfEmpties(xs[1..], c);
    } else if |xs| == 1 {
      assert xs[0] in xs;
    }
  }

  /** A string of one or more separators alone splits into the empty array. */
  lemma SplitOfSeparators(s: string, c: char)
    requires s != "" && forall i :: 0 <= i < |s| ==> s[i] == c
    ensures Split(s, Char(c)) == []
  {
    assert Delimits(Char(c), s[0]);
    var pieces := Pieces(s, Char(c));
    PiecesOfSeparators(s, c);
    assert forall i :: 0 <= i < |pieces| ==> pieces[i] == "" by {
      forall i | 0 <= i < |pieces| ensures pieces[i] == "" {
        assert pieces[i] in pieces;
      }
    }
  }

  /** A string that splits into the empty array is one or more separators alone. */
  lemma SplitEmptyOnlyForSeparators(s: string, c: char)
    requires Split(s, Char(c)) == []
    ensures s != "" && forall i :: 0 <= i < |s| ==> s[i] == c
  {
    var pieces := Pieces(s, Char(c));
    assert forall p :: p in pieces ==> p == "" by {
      forall p | p in pieces ensures p == "" {
        var k :| 0 <= k < |pieces| && pieces[k] == p;
      }
    }
    JoinOfEmpties(pieces, c);
    PiecesJoin(s, c);
  }

  // ---------------------------------------------------------------------------
  // Numbers and padding
  // ---------------------------------------------------------------------------

  function DigitChar(d: nat): (c: char)
    requires d < 10
    ensures IsAsciiDigit(c)
  {
    ('0' as int + d) as char
  }

  /** The number a string of decimal digits denotes, most significant digit first. */
  function DecimalValue(digits: string): int {
    if |digits| == 0 then 0
    else DecimalValue(digits[..|digits| - 1]) * 10 + (digits[|digits| - 1] as int - '0' as int)
  }

  /** Decimal digits without a leading zero (a lone "0" for zero) that denote `n`. */
  function NatToString(n: nat): (r: string)
    ensures |r| >= 1
    ensures forall i :: 0 <= i < |r| ==> IsAsciiDigit(r[i])
    ensures r[0] == '0' ==> n == 0
    ensures DecimalValue(r) == n
  {
    if n < 10 then
      assert [DigitChar(n)][..0] == [];
      [DigitChar(n)]
    else
      var r := NatToString(n / 10) + [DigitChar(n % 10)];
      assert r[..|r| - 1] == NatToString(n / 10);
      r
  }

  /** `String.valueOf(int)` and `long`: decimal digits, with a leading '-' when negative. */
  function IntToString(n: int): (r: string)
    ensures |r| >= 1
    ensures n < 0 <==> r[0] == '-'
    ensures n >= 0 ==> DecimalValue(r) == n
    ensures n < 0 ==> |r| >= 2 && DecimalValue(r[1..]) == -n
  {
    if n < 0 then
      var r := "-" + NatToString(-n);
      assert r[1..] == NatToString(-n);
      r
    else NatToString(n)
  }

  /** Distinct numbers render differently. */
  lemma IntToStringInjective(a: int, b: int)
    requires IntToString(a) == IntToString(b)
    ensures a == b
  {
    if a < 0 {
      assert DecimalValue(IntToString(a)[1..]) == -a;
    }
  }

  /** `String.format("%-" + width + "s", s)`: left-justified, padded with spaces. */
  function PadRight(s: string, width: nat): (r: string)
    ensures |r| == if |s| < width then width else |s|
    ensures r[..|s|] == s
    ensures forall i :: |s| <= i < |r| ==> r[i] == ' '
  {
    if |s| < width then s + seq(width - |s|, _ => ' ') else s
  }

  /** `s.replaceAll("[^a-zA-Z0-9]", "")`. */
  function KeepAlnum(s: string): (r: string)
    ensures |r| <= |s|
    ensures forall i :: 0 <= i < |r| ==> IsAsciiAlnum(r[i])
    ensures (forall i :: 0 <= i < |s| ==> IsAsciiAlnum(s[i])) ==> r == s
  {
    if |s| == 0 then ""
    else if IsAsciiAlnum(s[0]) then [s[0]] + KeepAlnum(s[1..])
    else KeepAlnum(s[1..])
  }

  /** One char is kept exactly when it is an ASCII letter or digit. */
  lemma KeepAlnumChar(c: char)
    ensures KeepAlnum([c]) == if IsAsciiAlnum(c) then [c] else ""
  {
    assert [c][1..] == "";
  }

  /** The filter works char by char: filtering a concatenation concatenates the filtered halves. */
  lemma {:induction false} KeepAlnumAppend(a: string, b: string)
    ensures KeepAlnum(a + b) == KeepAlnum(a) + KeepAlnum(b)
  {
    if |a| > 0 {
      assert (a + b)[1..] == a[1..] + b;
      KeepAlnumAppend(a[1..], b);
    } else {
      assert a + b == b;
    }
  }
}
