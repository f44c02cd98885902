/** The .NET string helpers the core relies on: `IsNullOrWhiteSpace`,
    invariant-culture case mapping and ordinal case-insensitive comparison. */
module Text {
  import opened Wrappers

  /** `char.IsWhiteSpace`: the Unicode space separators, line and paragraph
      separators, and U+0009..U+000D, U+0085, U+00A0. */
  predicate IsWhiteSpace(c: char) {
    || c == ' '
    || ('\t' <= c <= '\r')
    || c == '\U{0085}' || c == '\U{00A0}' || c == '\U{1680}'
    || ('\U{2000}' <= c <= '\U{200A}')
    || c == '\U{2028}' || c == '\U{2029}' || c == '\U{202F}' || c == '\U{205F}' || c == '\U{3000}'
  }

  /** A non-null string made only of white space (the empty string included). */
  predicate IsBlank(s: string) {
    forall i :: 0 <= i < |s| ==> IsWhiteSpace(s[i])
  }

  /** `string.IsNullOrWhiteSpace`, with `None` for null. */
  predicate IsNullOrWhiteSpace(s: Option<string>) {
    s.None? || IsBlank(s.value)
  }

  predicate IsAsciiLower(c: char) { 'a' <= c <= 'z' }
  predicate IsAsciiUpper(c: char) { 'A' <= c <= 'Z' }

  function LowerChar(c: char): char {
    if IsAsciiUpper(c) then (c as int + 32) as char else c
  }

  function UpperChar(c: char): char {
    if IsAsciiLower(c) then (c as int - 32) as char else c
  }

  /** `ToLowerInvariant`, for the ASCII letters. */
  function ToLowerInvariant(s: string): (r: string)
    ensures |r| == |s|
  {
    seq(|s|, i requires 0 <= i < |s| => LowerChar(s[i]))
  }

  /** `ToUpperInvariant`, for the ASCII letters. */
  function ToUpperInvariant(s: string): (r: string)
    ensures |r| == |s|
  {
    seq(|s|, i requires 0 <= i < |s| => UpperChar(s[i]))
  }

  /** `string.Equals(a, b, StringComparison.OrdinalIgnoreCase)`: equal once both
      are upper-cased. */
  predicate EqualsIgnoreCase(a: string, b: string) {
    ToUpperInvariant(a) == ToUpperInvariant(b)
  }

  predicate AllAsciiLower(s: string) {
    forall i :: 0 <= i < |s| ==> IsAsciiLower(s[i])
  }

  predicate AllAsciiUpper(s: string) {
    forall i :: 0 <= i < |s| ==> IsAsciiUpper(s[i])
  }

  lemma LowerCharOfLower(c: char, n: char)
    requires IsAsciiLower(n)
    ensures LowerChar(c) == n <==> UpperChar(c) == UpperChar(n)
  {
  }

  /** Lower-casing leaves a lower-case word as it is. */
  lemma {:induction false} LowerOfLowerIsSame(s: string)
    requires AllAsciiLower(s)
    ensures ToLowerInvariant(s) == s
  {
    var r := ToLowerInvariant(s);
    forall i | 0 <= i < |s| ensures r[i] == s[i] {
      assert IsAsciiLower(s[i]);
    }
  }

  /** Upper-casing leaves an upper-case word as it is. */
  lemma {:induction false} UpperOfUpperIsSame(s: string)
    requires AllAsciiUpper(s)
    ensures ToUpperInvariant(s) == s
  {
    var r := ToUpperInvariant(s);
    forall i | 0 <= i < |s| ensures r[i] == s[i] {
      assert IsAsciiUpper(s[i]);
    }
  }

  /** For a lower-case word, comparing ignoring case is the same as comparing the
      lower-cased string with it: the two checks the core uses on status names
      (an ordinal case-insensitive match and `ToLowerInvariant() ==`) agree. */
  lemma {:induction false} IgnoreCaseMatchesLower(s: string, name: string)
    requires AllAsciiLower(name)
    ensures EqualsIgnoreCase(s, name) <==> ToLowerInvariant(s) == name
  {
    var lo, up, upName := ToLowerInvariant(s), ToUpperInvariant(s), ToUpperInvariant(name);
    if |s| == |name| {
      forall i | 0 <= i < |s| ensures lo[i] == name[i] <==> up[i] == upName[i] {
        LowerCharOfLower(s[i], name[i]);
      }
      if lo == name {
        forall i | 0 <= i < |s| ensures up[i] == upName[i] {
          assert lo[i] == name[i];
        }
        assert up == upName;
      }
      if up == upName {
        forall i | 0 <= i < |s| ensures lo[i] == name[i] {
          assert up[i] == upName[i];
        }
        assert lo == name;
      }
    } else {
      assert |up| != |upName|;
    }
  }
}
