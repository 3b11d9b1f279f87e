/** The optional-value wrapper used throughout the models. */
module Wrappers {
  datatype Option<+T> = None | Some(value: T)
}

/**
 * The behaviour of JavaScript strings that the modelled code relies on:
 * white space as `trim` and the regular-expression class `\s` see it,
 * ASCII case mapping, substring search, `split`/`join` on one character,
 * number-to-string rendering and `parseInt`.
 */
module Text {
  import opened Wrappers

  /** ECMAScript WhiteSpace and LineTerminator code points (the set `trim` removes and `\s` matches). */
  predicate IsSpace(c: char) {
    || c == ' ' || c == '\t' || c == '\n' || c == '\r' || c == '\U{000B}' || c == '\U{000C}'
    || c == '\U{00A0}' || c == '\U{1680}' || ('\U{2000}' <= c <= '\U{200A}')
    || c == '\U{2028}' || c == '\U{2029}' || c == '\U{202F}' || c == '\U{205F}'
    || c == '\U{3000}' || c == '\U{FEFF}'
  }

  /** The characters a regular-expression `.` refuses to match (without the `s` flag). */
  predicate IsLineTerminator(c: char) {
    c == '\n' || c == '\r' || c == '\U{2028}' || c == '\U{2029}'
  }

  predicate NoSpace(s: string) {
    forall k :: 0 <= k < |s| ==> !IsSpace(s[k])
  }

  /** `String.prototype.trimStart`. */
  function TrimStart(s: string): (r: string)
    ensures |r| <= |s| && r == s[|s| - |r|..]
    ensures forall k :: 0 <= k < |s| - |r| ==> IsSpace(s[k])
    ensures r != [] ==> !IsSpace(r[0])
    decreases |s|
  {
    if s != [] && IsSpace(s[0]) then TrimStart(s[1..]) else s
  }

  /** `String.prototype.trimEnd`. */
  function TrimEnd(s: string): (r: string)
    ensures |r| <= |s| && r == s[..|r|]
    ensures forall k :: |r| <= k < |s| ==> IsSpace(s[k])
    ensures r != [] ==> !IsSpace(r[|r| - 1])
    decreases |s|
  {
    if s != [] && IsSpace(s[|s| - 1]) then TrimEnd(s[..|s| - 1]) else s
  }

  /** `String.prototype.trim`. */
  function Trim(s: string): string {
    TrimEnd(TrimStart(s))
  }

  /** `!s.trim()`: the string is empty or white space only. */
  predicate IsBlank(s: string) {
    Trim(s) == ""
  }

  /** JavaScript truthiness of an optional string: present and not empty. */
  predicate Truthy(field: Option<string>) {
    field.Some? && field.value != ""
  }

  lemma BlankIffAllSpace(s: string)
    ensures IsBlank(s) <==> forall k :: 0 <= k < |s| ==> IsSpace(s[k])
  {
    var t := TrimStart(s);
    if IsBlank(s) {
      assert t == [];
    } else {
      var r := TrimEnd(t);
      assert r != [] && !IsSpace(r[0]);
      assert r[0] == s[|s| - |t|];
    }
  }

  /** A non-blank string has a non-space character. */
  lemma NotBlankHasNonSpace(s: string) returns (k: nat)
    requires !IsBlank(s)
    ensures k < |s| && !IsSpace(s[k])
  {
    BlankIffAllSpace(s);
    k :| 0 <= k < |s| && !IsSpace(s[k]);
  }

  function LowerChar(c: char): char {
    if 'A' <= c <= 'Z' then (c as int + 32) as char else c
  }

  function UpperChar(c: char): char {
    if 'a' <= c <= 'z' then (c as int - 32) as char else c
  }

  predicate IsUpperAscii(c: char) { 'A' <= c <= 'Z' }
  predicate IsLowerAscii(c: char) { 'a' <= c <= 'z' }
  predicate IsDigit(c: char) { '0' <= c <= '9' }

  /** `toLowerCase`, on the ASCII letters. */
  function ToLower(s: string): (r: string)
    ensures |r| == |s|
  {
    seq(|s|, k requires 0 <= k < |s| => LowerChar(s[k]))
  }

  /** `toUpperCase`, on the ASCII letters. */
  function ToUpper(s: string): (r: string)
    ensures |r| == |s|
  {
    seq(|s|, k requires 0 <= k < |s| => UpperChar(s[k]))
  }

  /** `pat` occurs in `s` starting at index `i`. */
  predicate OccursAt(pat: string, s: string, i: int) {
    0 <= i && i + |pat| <= |s| && s[i..i + |pat|] == pat
  }

  /** `s.match(/pat/)` for a pattern made of plain characters. */
  predicate Contains(s: string, pat: string) {
    exists i | 0 <= i <= |s| :: OccursAt(pat, s, i)
  }

  predicate StartsWith(s: string, pre: string) {
    |pre| <= |s| && s[..|pre|] == pre
  }

  lemma StartsWithContains(s: string, pre: string)
    requires StartsWith(s, pre)
    ensures Contains(s, pre)
  {
    assert OccursAt(pre, s, 0);
  }

  /**
   * Trimming cannot destroy an occurrence of a pattern that begins and ends
   * with a non-space character.
   */
  lemma ContainsSurvivesTrim(s: string, pat: string)
    requires |pat| > 0 && !IsSpace(pat[0]) && !IsSpace(pat[|pat| - 1])
    ensures Contains(Trim(s), pat) <==> Contains(s, pat)
  {
    ContainsSurvivesTrimStart(s, pat);
    ContainsSurvivesTrimEnd(TrimStart(s), pat);
  }

  lemma ContainsSurvivesTrimStart(s: string, pat: string)
    requires |pat| > 0 && !IsSpace(pat[0])
    ensures Contains(TrimStart(s), pat) <==> Contains(s, pat)
  {
    var t := TrimStart(s);
    var a := |s| - |t|;
    if Contains(s, pat) {
      var i :| 0 <= i <= |s| && OccursAt(pat, s, i);
      OccurrenceAfterSpaces(s, pat, i, a);
      OccursInSuffix(s, pat, a, i);
      assert OccursAt(pat, t, i - a);
    }
    if Contains(t, pat) {
      var j :| 0 <= j <= |t| && OccursAt(pat, t, j);
      OccursFromSuffix(s, pat, a, j);
    }
  }

  lemma OccursInSuffix(s: string, pat: string, a: int, i: int)
    requires 0 <= a <= i && OccursAt(pat, s, i)
    ensures OccursAt(pat, s[a..], i - a)
  {
    assert s[a..][i - a..i - a + |pat|] == s[i..i + |pat|];
  }

  lemma OccursFromSuffix(s: string, pat: string, a: int, j: int)
    requires 0 <= a <= |s| && OccursAt(pat, s[a..], j)
    ensures OccursAt(pat, s, a + j)
  {
    assert s[a + j..a + j + |pat|] == s[a..][j..j + |pat|];
  }

  lemma OccurrenceAfterSpaces(s: string, pat: string, i: int, a: int)
    requires |pat| > 0 && !IsSpace(pat[0]) && OccursAt(pat, s, i)
    requires 0 <= a <= |s| && forall k :: 0 <= k < a ==> IsSpace(s[k])
    ensures i >= a
  {
    assert s[i] == pat[0] by { assert s[i..i + |pat|][0] == s[i]; }
  }

  lemma ContainsSurvivesTrimEnd(s: string, pat: string)
    requires |pat| > 0 && !IsSpace(pat[|pat| - 1])
    ensures Contains(TrimEnd(s), pat) <==> Contains(s, pat)
  {
    var r := TrimEnd(s);
    if Contains(s, pat) {
      var i :| 0 <= i <= |s| && OccursAt(pat, s, i);
      assert s[i + |pat| - 1] == pat[|pat| - 1] by { assert s[i..i + |pat|][|pat| - 1] == s[i + |pat| - 1]; }
      assert i + |pat| <= |r| by {
        if i + |pat| > |r| {
          assert false;
        }
      }
      assert r[i..i + |pat|] == s[i..i + |pat|];
      assert OccursAt(pat, r, i);
    }
    if Contains(r, pat) {
      var j :| 0 <= j <= |r| && OccursAt(pat, r, j);
      assert s[j..j + |pat|] == r[j..j + |pat|];
      assert OccursAt(pat, s, j);
    }
  }

  /** The index of the first `c` in `s`, as `indexOf` finds it. */
  function IndexOf(s: string, c: char): (r: Option<nat>)
    ensures r.Some? ==> r.value < |s| && s[r.value] == c && c !in s[..r.value]
    ensures r.None? ==> c !in s
  {
    if s == [] then None
    else if s[0] == c then Some(0)
    else
      var rest := IndexOf(s[1..], c);
      assert s[1..] == s[1..];
      if rest.None? then None
      else
        assert s[..rest.value + 1] == [s[0]] + s[1..][..rest.value];
        Some(rest.value + 1)
  }

  /** `parts.join(sep)`. */
  function Join(parts: seq<string>, sep: string): string {
    if |parts| == 0 then ""
    else if |parts| == 1 then parts[0]
    else parts[0] + sep + Join(parts[1..], sep)
  }

  /** A `c` with no `c` before it is the one `indexOf` finds. */
  lemma {:induction false} IndexOfFirst(s: string, c: char, i: nat)
    requires i < |s| && s[i] == c && c !in s[..i]
    ensures IndexOf(s, c) == Some(i)
  {
    if i > 0 {
      assert s[..i][0] == s[0];
      assert s[1..][..i - 1] == s[..i][1..];
      IndexOfFirst(s[1..], c, i - 1);
    }
  }

  /** `s.split(sep)` for a one-character separator: every occurrence cuts, empty pieces are kept. */
  function Split(s: string, sep: char): (parts: seq<string>)
    ensures |parts| >= 1
    ensures forall k :: 0 <= k < |parts| ==> sep !in parts[k]
    ensures Join(parts, [sep]) == s
    decreases |s|
  {
    match IndexOf(s, sep)
    case None => [s]
    case Some(i) =>
      var rest := Split(s[i + 1..], sep);
      assert s == s[..i] + [sep] + s[i + 1..];
      [s[..i]] + rest
  }

  /** Splitting undoes joining, when no piece holds the separator. */
  lemma {:induction false} SplitJoin(parts: seq<string>, sep: char)
    requires |parts| >= 1
    requires forall k :: 0 <= k < |parts| ==> sep !in parts[k]
    ensures Split(Join(parts, [sep]), sep) == parts
  {
    if |parts| == 1 {
      assert IndexOf(parts[0], sep).None?;
    } else {
      var p, rest := parts[0], Join(parts[1..], [sep]);
      var s := p + [sep] + rest;
      assert Join(parts, [sep]) == s;
      assert s[|p|] == sep && s[..|p|] == p && s[|p| + 1..] == rest;
      IndexOfFirst(s, sep, |p|);
      SplitJoin(parts[1..], sep);
      assert Split(s, sep) == [p] + Split(rest, sep);
      assert parts == [p] + parts[1..];
    }
  }

  /** The value of a run of decimal digits, most significant first. */
  function DigitValue(c: char): nat {
    if '0' <= c <= '9' then c as nat - '0' as nat
    else if 'a' <= c <= 'z' then c as nat - 'a' as nat + 10
    else if 'A' <= c <= 'Z' then c as nat - 'A' as nat + 10
    else 36
  }

  predicate AllDigits(s: string) {
    forall k :: 0 <= k < |s| ==> IsDigit(s[k])
  }

  /** The value of `d` read in base `radix`, most significant digit first. */
  function DigitsValue(d: string, radix: nat): nat
    decreases |d|
  {
    if d == [] then 0
    else DigitsValue(d[..|d| - 1], radix) * radix + (if DigitValue(d[|d| - 1]) < radix then DigitValue(d[|d| - 1]) else 0)
  }

  function DigitChar(v: nat): (c: char)
    requires v < 10
    ensures IsDigit(c) && DigitValue(c) == v
  {
    ('0' as int + v) as char
  }

  /** `String(n)` for a non-negative integer. */
  function DecimalString(n: nat): (r: string)
    ensures |r| >= 1 && AllDigits(r)
    ensures DigitsValue(r, 10) == n
    ensures n > 0 ==> r[0] != '0'
  {
    if n < 10 then [DigitChar(n)]
    else
      var hi := DecimalString(n / 10);
      var r := hi + [DigitChar(n % 10)];
      assert r[..|r| - 1] == hi;
      r
  }

  /** `String(i)` for an integer. */
  function IntString(i: int): string {
    if i < 0 then "-" + DecimalString(-i) else DecimalString(i)
  }

  /** The longest prefix of `s` made of digits of base `radix`. */
  function DigitPrefix(s: string, radix: nat): (r: string)
    ensures |r| <= |s| && r == s[..|r|]
    ensures forall k :: 0 <= k < |r| ==> DigitValue(r[k]) < radix
    ensures |r| == |s| || DigitValue(s[|r|]) >= radix
  {
    if s == [] || DigitValue(s[0]) >= radix then ""
    else [s[0]] + DigitPrefix(s[1..], radix)
  }

  lemma {:induction false} DigitPrefixOfDigits(s: string, radix: nat)
    requires forall k :: 0 <= k < |s| ==> DigitValue(s[k]) < radix
    ensures DigitPrefix(s, radix) == s
  {
    if s != [] {
      DigitPrefixOfDigits(s[1..], radix);
    }
  }

  /**
   * `parseInt(s)` with no radix: leading white space is skipped, one sign is
   * read, a `0x`/`0X` prefix selects base 16, and the longest run of digits
   * that follows is read; no digits at all gives `NaN` (here `None`).
   */
  function ParseInt(s: string): Option<int> {
    var t := TrimStart(s);
    var negative := |t| > 0 && t[0] == '-';
    var u := if |t| > 0 && (t[0] == '-' || t[0] == '+') then t[1..] else t;
    var hex := |u| >= 2 && u[0] == '0' && (u[1] == 'x' || u[1] == 'X');
    var radix := if hex then 16 else 10;
    var digits := DigitPrefix(if hex then u[2..] else u, radix);
    var magnitude: int := DigitsValue(digits, radix);
    if digits == "" then None
    else Some(if negative then -magnitude else magnitude)
  }

  /** On a string of decimal digits `parseInt` reads the whole string in base 10, and `""` is `NaN`. */
  lemma ParseIntOfDigits(s: string)
    requires AllDigits(s)
    ensures s == "" ==> ParseInt(s).None?
    ensures s != "" ==> ParseInt(s) == Some(DigitsValue(s, 10))
  {
    if s != [] {
      assert IsDigit(s[0]);
      assert !IsSpace(s[0]);
      assert TrimStart(s) == s;
      assert !(s[0] == '-' || s[0] == '+');
      assert |s| >= 2 ==> !(s[1] == 'x' || s[1] == 'X');
      DigitPrefixOfDigits(s, 10);
    } else {
      assert TrimStart(s) == s;
    }
  }

  /** `parseInt(String(n)) == n`. */
  lemma ParseIntDecimalString(n: nat)
    ensures ParseInt(DecimalString(n)) == Some(n)
  {
    ParseIntOfDigits(DecimalString(n));
  }
}
