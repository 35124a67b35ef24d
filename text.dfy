/** The .NET string operations the core relies on: string.IsNullOrWhiteSpace,
    Trim, TrimStart('-'), StartsWith, ToLower (ASCII only) and code-point
    comparison. Strings are sequences of Unicode scalar values. */
module Text {
  import opened Wrappers

  /** char.IsWhiteSpace: the separators of categories Zs, Zl and Zp plus
      U+0009..U+000D and U+0085. */
  predicate IsWhiteSpace(c: char) {
    || c == ' '
    || ('\t' <= c <= '\r')
    || c == '\U{0085}'
    || c == '\U{00A0}'
    || c == '\U{1680}'
    || ('\U{2000}' <= c <= '\U{200A}')
    || c == '\U{2028}'
    || c == '\U{2029}'
    || c == '\U{202F}'
    || c == '\U{205F}'
    || c == '\U{3000}'
  }

  /** Empty or made only of white space. */
  predicate IsBlank(s: string) {
    forall i :: 0 <= i < |s| ==> IsWhiteSpace(s[i])
  }

  /** string.IsNullOrWhiteSpace, with null as None. */
  predicate IsNullOrWhiteSpace(s: Option<string>) {
    s.None? || IsBlank(s.value)
  }

  /** Removes leading white space: what is left is a suffix of s that is
      empty or starts with a non-white character, and what was cut is blank. */
  function TrimStart(s: string): (r: string)
    ensures |r| <= |s| && r == s[|s| - |r|..]
    ensures IsBlank(s[..|s| - |r|])
    ensures r != [] ==> !IsWhiteSpace(r[0])
  {
    if s != [] && IsWhiteSpace(s[0]) then
      var r := TrimStart(s[1..]);
      assert forall i :: 0 < i < |s| - |r| ==> s[i] == s[1..][i - 1];
      r
    else
      assert s[..0] == [];
      s
  }

  /** Removes trailing white space: what is left is a prefix of s that is
      empty or ends with a non-white character, and what was cut is blank. */
  function TrimEnd(s: string): (r: string)
    ensures |r| <= |s| && r == s[..|r|]
    ensures IsBlank(s[|r|..])
    ensures r != [] ==> !IsWhiteSpace(r[|r| - 1])
  {
    if s != [] && IsWhiteSpace(s[|s| - 1]) then
      var t := s[..|s| - 1];
      var r := TrimEnd(t);
      assert r == s[..|r|];
      assert s[|r|..] == t[|r|..] + [s[|s| - 1]];
      r
    else
      assert s[|s|..] == [];
      s
  }

  /** string.Trim(). */
  function Trim(s: string): string {
    TrimEnd(TrimStart(s))
  }

  /** Trimming never lengthens a string, empties exactly the blank strings,
      and leaves no white space at either end. */
  lemma TrimProperties(s: string)
    ensures |Trim(s)| <= |s|
    ensures Trim(s) == [] <==> IsBlank(s)
    ensures Trim(s) != [] ==> !IsWhiteSpace(Trim(s)[0]) && !IsWhiteSpace(Trim(s)[|Trim(s)| - 1])
  {
    var t := TrimStart(s);
    var r := TrimEnd(t);
    if t == [] {
      assert s[..|s|] == s;
    } else {
      var k := |s| - |t|;
      assert t[0] == s[k];
      assert !IsBlank(s) by { assert !IsWhiteSpace(s[k]); }
      assert r[0] == t[0];
    }
  }

  /** A string without white space at either end is left as it is by Trim. */
  lemma TrimKeepsTrimmed(s: string)
    requires s != [] ==> !IsWhiteSpace(s[0]) && !IsWhiteSpace(s[|s| - 1])
    ensures Trim(s) == s
  {
  }

  /** s.StartsWith(c). */
  predicate StartsWith(s: string, c: char) {
    s != [] && s[0] == c
  }

  /** s.TrimStart(c): removes every leading occurrence of c. */
  function TrimStartChar(s: string, c: char): (r: string)
    ensures |r| <= |s| && r == s[|s| - |r|..]
    ensures forall i :: 0 <= i < |s| - |r| ==> s[i] == c
    ensures !StartsWith(r, c)
  {
    if StartsWith(s, c) then TrimStartChar(s[1..], c) else s
  }

  /** Lower-cases the ASCII letters A..Z and leaves every other character. */
  function ToLowerChar(c: char): char {
    if 'A' <= c <= 'Z' then (c as int + ('a' as int - 'A' as int)) as char else c
  }

  /** s.ToLower(), restricted to ASCII case mapping. */
  function ToLower(s: string): (r: string)
    ensures |r| == |s|
  {
    seq(|s|, i requires 0 <= i < |s| => ToLowerChar(s[i]))
  }

  lemma ToLowerIdempotent(s: string)
    ensures ToLower(ToLower(s)) == ToLower(s)
  {
  }

  /** A leading '-' is one of those TrimStart('-') removes. */
  lemma TrimStartDashOfDashed(s: string)
    requires StartsWith(s, '-')
    ensures TrimStartChar(s, '-') == TrimStartChar(s[1..], '-')
  {
  }

  /** Lower-casing neither creates nor removes a '-'. */
  lemma ToLowerStartsWithDash(s: string)
    ensures StartsWith(ToLower(s), '-') == StartsWith(s, '-')
    ensures s != [] ==> ToLower(s)[1..] == ToLower(s[1..])
  {
  }

  /** The order `OrderBy` on a string column gets from SQLite's default
      BINARY collation: lexicographic by code point (UTF-8 byte order is
      code-point order), a proper prefix coming first. */
  predicate CodePointLe(a: string, b: string)
    decreases |a|
  {
    a == [] || (b != [] && (a[0] < b[0] || (a[0] == b[0] && CodePointLe(a[1..], b[1..]))))
  }

  lemma {:induction false} CodePointLeTotal(a: string, b: string)
    ensures CodePointLe(a, b) || CodePointLe(b, a)
    decreases |a|
  {
    if a != [] && b != [] && a[0] == b[0] {
      CodePointLeTotal(a[1..], b[1..]);
    }
  }

  lemma {:induction false} CodePointLeTransitive(a: string, b: string, c: string)
    requires CodePointLe(a, b) && CodePointLe(b, c)
    ensures CodePointLe(a, c)
    decreases |a|
  {
    if a != [] && a[0] == b[0] && b[0] == c[0] {
      CodePointLeTransitive(a[1..], b[1..], c[1..]);
    }
  }

  lemma {:induction false} CodePointLeAntisymmetric(a: string, b: string)
    requires CodePointLe(a, b) && CodePointLe(b, a)
    ensures a == b
    decreases |a|
  {
    if a != [] {
      CodePointLeAntisymmetric(a[1..], b[1..]);
      assert a == [a[0]] + a[1..] && b == [b[0]] + b[1..];
    }
  }
}
