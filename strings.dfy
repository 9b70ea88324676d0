/** Character-level helpers shared by every part of the model. Python's
    `str.strip` and JavaScript's `trim` each remove their own language's
    whitespace, written out below; `str.lower`, `str.isdigit` and `\D` are
    restricted to ASCII: the digits are '0'..'9' and only 'A'..'Z' have a
    lower case. */
module Strings {

  // ---------------------------------------------------------------- whitespace

  /** Whose notion of whitespace a trim uses. */
  datatype Language = Python | JavaScript

  /** Whitespace to both languages: TAB..CR, the space separators of
      Unicode category Zs, and the line and paragraph separators. */
  predicate IsCommonSpace(c: char) {
    || ('\t' <= c <= '\r') || c == ' ' || c == '\U{A0}' || c == '\U{1680}'
    || ('\U{2000}' <= c <= '\U{200A}') || c == '\U{2028}' || c == '\U{2029}'
    || c == '\U{202F}' || c == '\U{205F}' || c == '\U{3000}'
  }

  /** Python's `str.isspace` also counts the four information separators
      U+001C..U+001F and NEL (U+0085); JavaScript's `trim` keeps those and
      removes the byte order mark (U+FEFF) instead. */
  predicate IsSpaceIn(lang: Language, c: char) {
    || IsCommonSpace(c)
    || (lang == Python && (('\U{1C}' <= c <= '\U{1F}') || c == '\U{85}'))
    || (lang == JavaScript && c == '\U{FEFF}')
  }

  /** A string with no whitespace at either end. */
  predicate IsTrimmedIn(lang: Language, s: string) {
    s == [] || (!IsSpaceIn(lang, s[0]) && !IsSpaceIn(lang, s[|s| - 1]))
  }

  predicate IsBlankIn(lang: Language, s: string) {
    forall i :: 0 <= i < |s| ==> IsSpaceIn(lang, s[i])
  }

  /** Drops leading whitespace. */
  function TrimStart(lang: Language, s: string): string {
    if s != [] && IsSpaceIn(lang, s[0]) then TrimStart(lang, s[1..]) else s
  }

  /** The result of `TrimStart` is a suffix of `s`, does not start with
      whitespace, and only whitespace was removed. */
  lemma {:induction false} TrimStartIsSuffix(lang: Language, s: string)
    ensures var r := TrimStart(lang, s);
            && |r| <= |s| && r == s[|s| - |r|..]
            && (r == [] || !IsSpaceIn(lang, r[0]))
            && forall i :: 0 <= i < |s| - |r| ==> IsSpaceIn(lang, s[i])
  {
    if s != [] && IsSpaceIn(lang, s[0]) {
      TrimStartIsSuffix(lang, s[1..]);
    }
  }

  /** Drops trailing whitespace. */
  function TrimEnd(lang: Language, s: string): string {
    if s != [] && IsSpaceIn(lang, s[|s| - 1]) then TrimEnd(lang, s[..|s| - 1]) else s
  }

  /** The result of `TrimEnd` is a prefix of `s`, does not end with
      whitespace, and only whitespace was removed. */
  lemma {:induction false} TrimEndIsPrefix(lang: Language, s: string)
    ensures var r := TrimEnd(lang, s);
            && |r| <= |s| && r == s[..|r|]
            && (r == [] || !IsSpaceIn(lang, r[|r| - 1]))
            && forall i :: |r| <= i < |s| ==> IsSpaceIn(lang, s[i])
  {
    if s != [] && IsSpaceIn(lang, s[|s| - 1]) {
      TrimEndIsPrefix(lang, s[..|s| - 1]);
    }
  }

  /** `s.strip()` in Python, `s.trim()` in JavaScript. */
  function TrimIn(lang: Language, s: string): (r: string)
    ensures IsTrimmedIn(lang, r)
    ensures r == [] <==> IsBlankIn(lang, s)
  {
    TrimEndOfTrimStart(lang, s);
    TrimEnd(lang, TrimStart(lang, s))
  }

  lemma TrimEndOfTrimStart(lang: Language, s: string)
    ensures IsTrimmedIn(lang, TrimEnd(lang, TrimStart(lang, s)))
    ensures TrimEnd(lang, TrimStart(lang, s)) == [] <==> IsBlankIn(lang, s)
  {
    var t := TrimStart(lang, s);
    var r := TrimEnd(lang, t);
    TrimStartIsSuffix(lang, s);
    TrimEndIsPrefix(lang, t);
    assert r != [] ==> r[0] == t[0];
    if r == [] {
      assert t == [];
    } else {
      assert !IsSpaceIn(lang, s[|s| - |t|]);
    }
  }

  /** Trimming leaves an already trimmed string alone. */
  lemma TrimOfTrimmed(lang: Language, s: string)
    requires IsTrimmedIn(lang, s)
    ensures TrimIn(lang, s) == s
  {
    assert TrimStart(lang, s) == s;
  }

  /** Trimming is idempotent. */
  lemma TrimIdempotent(lang: Language, s: string)
    ensures TrimIn(lang, TrimIn(lang, s)) == TrimIn(lang, s)
  {
    TrimOfTrimmed(lang, TrimIn(lang, s));
  }

  /** Python's `strip`, which every server-side part of the model uses. */
  function Trim(s: string): (r: string)
    ensures IsTrimmed(r)
    ensures r == [] <==> IsBlank(s)
  {
    TrimIn(Python, s)
  }

  predicate IsTrimmed(s: string) {
    IsTrimmedIn(Python, s)
  }

  predicate IsBlank(s: string) {
    IsBlankIn(Python, s)
  }

  // ---------------------------------------------------------------- case

  function LowerChar(c: char): (r: char) {
    if 'A' <= c <= 'Z' then (c as int - 'A' as int + 'a' as int) as char else c
  }

  /** `s.lower()`, one character at a time. */
  function Lower(s: string): (r: string)
    ensures |r| == |s|
  {
    seq(|s|, i requires 0 <= i < |s| => LowerChar(s[i]))
  }

  predicate IsLower(s: string) {
    forall i :: 0 <= i < |s| ==> !('A' <= s[i] <= 'Z')
  }

  lemma LowerOfLower(s: string)
    requires IsLower(s)
    ensures Lower(s) == s
  {
  }

  // ---------------------------------------------------------------- digits

  predicate IsDigit(c: char) {
    '0' <= c <= '9'
  }

  predicate AllDigits(s: string) {
    forall i :: 0 <= i < |s| ==> IsDigit(s[i])
  }

  /** The digits of `s`, in order: Python's `"".join(filter(str.isdigit, s))`
      and JavaScript's `s.replace(/\D/g, "")`. */
  function Digits(s: string): (r: string)
    ensures AllDigits(r)
    ensures |r| <= |s|
    ensures AllDigits(s) ==> r == s
  {
    if s == [] then []
    else if IsDigit(s[0]) then [s[0]] + Digits(s[1..])
    else Digits(s[1..])
  }

  /** Digits are taken from each part of a string in turn, so their order
      is kept. */
  lemma {:induction false} DigitsOfConcat(a: string, b: string)
    ensures Digits(a + b) == Digits(a) + Digits(b)
  {
    if a == [] {
      assert a + b == b;
    } else {
      assert (a + b)[1..] == a[1..] + b;
      DigitsOfConcat(a[1..], b);
    }
  }

  /** Every digit of `s` is kept, as often as it occurs, and nothing else:
      `|Digits(s)|` is the number of digit characters in `s`. */
  lemma {:induction false} DigitsKeepEveryDigit(s: string)
    ensures forall c :: multiset(Digits(s))[c] == if IsDigit(c) then multiset(s)[c] else 0
  {
    if s != [] {
      DigitsKeepEveryDigit(s[1..]);
      assert s == [s[0]] + s[1..];
    }
  }

  /** Whitespace is never a digit, so trimming keeps every digit, in either
      language. */
  lemma DigitsOfTrim(lang: Language, s: string)
    ensures Digits(TrimIn(lang, s)) == Digits(s)
  {
    DigitsOfTrimStart(lang, s);
    DigitsOfTrimEnd(lang, TrimStart(lang, s));
  }

  lemma {:induction false} DigitsOfTrimStart(lang: Language, s: string)
    ensures Digits(TrimStart(lang, s)) == Digits(s)
  {
    if s != [] && IsSpaceIn(lang, s[0]) {
      DigitsOfTrimStart(lang, s[1..]);
    }
  }

  lemma {:induction false} DigitsOfTrimEnd(lang: Language, s: string)
    ensures Digits(TrimEnd(lang, s)) == Digits(s)
  {
    if s != [] && IsSpaceIn(lang, s[|s| - 1]) {
      var init := s[..|s| - 1];
      DigitsOfTrimEnd(lang, init);
      assert s == init + [s[|s| - 1]];
      DigitsOfConcat(init, [s[|s| - 1]]);
      assert Digits([s[|s| - 1]]) == [];
    }
  }

  // ---------------------------------------------------------------- substrings

  predicate StartsWith(s: string, prefix: string) {
    prefix <= s
  }

  /** Whether `q` occurs in `s` as a contiguous substring (Python's `q in s`,
      SQL's `LIKE '%q%'`). */
  function Contains(s: string, q: string): (r: bool)
    ensures r <==> exists i :: 0 <= i <= |s| && q <= s[i..]
  {
    if q <= s then
      assert q <= s[0..];
      true
    else if s == [] then
      false
    else
      var r := Contains(s[1..], q);
      assert forall i :: 1 <= i <= |s| ==> s[i..] == s[1..][i - 1..];
      assert r ==> exists i :: 0 <= i <= |s| && q <= s[i..] by {
        if r {
          var k :| 0 <= k <= |s[1..]| && q <= s[1..][k..];
          assert q <= s[k + 1..];
        }
      }
      r
  }

  // ---------------------------------------------------------------- ordering

  /** Lexicographic order by character code: how the store is taken to
      sort text columns, as SQLite's default BINARY collation does. */
  predicate LexLe(a: string, b: string) {
    a == [] || (b != [] && (a[0] < b[0] || (a[0] == b[0] && LexLe(a[1..], b[1..]))))
  }

  lemma {:induction false} LexReflexive(a: string)
    ensures LexLe(a, a)
  {
    if a != [] {
      LexReflexive(a[1..]);
    }
  }

  lemma {:induction false} LexTotal(a: string, b: string)
    ensures LexLe(a, b) || LexLe(b, a)
  {
    if a != [] && b != [] && a[0] == b[0] {
      LexTotal(a[1..], b[1..]);
    }
  }

  lemma {:induction false} LexAntisymmetric(a: string, b: string)
    requires LexLe(a, b) && LexLe(b, a)
    ensures a == b
  {
    if a != [] && b != [] {
      LexAntisymmetric(a[1..], b[1..]);
      assert a == [a[0]] + a[1..];
      assert b == [b[0]] + b[1..];
    }
  }

  lemma {:induction false} LexTransitive(a: string, b: string, c: string)
    requires LexLe(a, b) && LexLe(b, c)
    ensures LexLe(a, c)
  {
    if a != [] && b != [] && c != [] && a[0] == b[0] == c[0] {
      LexTransitive(a[1..], b[1..], c[1..]);
    }
  }
}
