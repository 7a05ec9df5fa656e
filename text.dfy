/** String helpers shared by the JavaScript front end and the Python import script:
    substring and suffix tests, case folding, whitespace trimming, decimal rendering
    and joining. Strings are sequences of Unicode scalar values. */
module Text {

  /** `hay` contains `needle` at some position (JavaScript `includes`, Python `in`). */
  function Contains(hay: string, needle: string): (b: bool)
    decreases |hay|
  {
    needle <= hay || (|hay| > 0 && Contains(hay[1..], needle))
  }

  /** The positional definition of a substring occurrence. */
  ghost predicate OccursAt(hay: string, needle: string, i: int)
  {
    0 <= i && i + |needle| <= |hay| && hay[i..i + |needle|] == needle
  }

  /** `Contains` finds an occurrence exactly when there is one at some position. */
  lemma {:induction false} ContainsIff(hay: string, needle: string)
    ensures Contains(hay, needle) <==> exists i :: OccursAt(hay, needle, i)
    decreases |hay|
  {
    forall i | OccursAt(hay, needle, i) ensures Contains(hay, needle) {
      if i == 0 {
        assert hay[..|needle|] == needle;
      } else {
        ContainsIff(hay[1..], needle);
        assert hay[1..][i - 1..i - 1 + |needle|] == hay[i..i + |needle|];
        assert OccursAt(hay[1..], needle, i - 1);
      }
    }
    if Contains(hay, needle) {
      if needle <= hay {
        assert hay[0..|needle|] == needle;
        assert OccursAt(hay, needle, 0);
      } else {
        ContainsIff(hay[1..], needle);
        var i :| OccursAt(hay[1..], needle, i);
        assert hay[1..][i..i + |needle|] == hay[i + 1..i + 1 + |needle|];
        assert OccursAt(hay, needle, i + 1);
      }
    }
  }

  /** A needle longer than the text never occurs in it. */
  lemma {:induction false} LongerNotContained(hay: string, needle: string)
    requires |needle| > |hay|
    ensures !Contains(hay, needle)
    decreases |hay|
  {
    if |hay| > 0 {
      LongerNotContained(hay[1..], needle);
    }
  }

  /** JavaScript `endsWith` (case-sensitive). */
  function EndsWith(s: string, suffix: string): bool
  {
    |suffix| <= |s| && s[|s| - |suffix|..] == suffix
  }

  /** `EndsWith` holds exactly when `s` is some string followed by `suffix`. */
  lemma EndsWithIff(s: string, suffix: string)
    ensures EndsWith(s, suffix) <==> exists prefix :: s == prefix + suffix
  {
    if EndsWith(s, suffix) {
      assert s == s[..|s| - |suffix|] + suffix;
    }
    forall prefix | s == prefix + suffix ensures EndsWith(s, suffix) {
      assert s[|prefix|..] == suffix;
    }
  }

  /** Lower-cases the ASCII capitals A to Z; every other character is kept. */
  function LowerChar(c: char): char
  {
    if 'A' <= c <= 'Z' then (c as int + 32) as char else c
  }

  function Lower(s: string): (r: string)
    ensures |r| == |s| && forall i :: 0 <= i < |s| ==> r[i] == LowerChar(s[i])
  {
    seq(|s|, i requires 0 <= i < |s| => LowerChar(s[i]))
  }

  /** The characters JavaScript's `String.prototype.trim` removes: white space and
      line terminators (section 12.2 and 12.3 of ECMA-262). */
  predicate IsJsWhitespace(c: char)
  {
    c == '\t' || c == '\n' || c == '\U{B}' || c == '\U{C}' || c == '\r' || c == ' '
    || c == '\U{A0}' || c == '\U{1680}' || ('\U{2000}' <= c <= '\U{200A}')
    || c == '\U{2028}' || c == '\U{2029}' || c == '\U{202F}' || c == '\U{205F}'
    || c == '\U{3000}' || c == '\U{FEFF}'
  }

  /** The characters Python's `str.strip()` removes (those for which `str.isspace()` holds). */
  predicate IsPyWhitespace(c: char)
  {
    ('\t' <= c <= '\r') || ('\U{1C}' <= c <= '\U{1F}') || c == ' ' || c == '\U{85}'
    || c == '\U{A0}' || c == '\U{1680}' || ('\U{2000}' <= c <= '\U{200A}')
    || c == '\U{2028}' || c == '\U{2029}' || c == '\U{202F}' || c == '\U{205F}' || c == '\U{3000}'
  }

  /** Number of leading characters of `s` that satisfy `ws`. */
  function LeadingCount(s: string, ws: char -> bool): (n: nat)
    ensures n <= |s|
    ensures forall k :: 0 <= k < n ==> ws(s[k])
    ensures n < |s| ==> !ws(s[n])
  {
    if |s| == 0 || !ws(s[0]) then 0 else 1 + LeadingCount(s[1..], ws)
  }

  /** Number of trailing characters of `s` that satisfy `ws`. */
  function TrailingCount(s: string, ws: char -> bool): (n: nat)
    ensures n <= |s|
    ensures forall k :: |s| - n <= k < |s| ==> ws(s[k])
    ensures n < |s| ==> !ws(s[|s| - 1 - n])
  {
    if |s| == 0 || !ws(s[|s| - 1]) then 0 else 1 + TrailingCount(s[..|s| - 1], ws)
  }

  /** Removes the longest prefix and suffix made of characters satisfying `ws`. The result
      is a slice of `s` that neither starts nor ends with such a character, and everything
      cut off satisfies `ws`. */
  function Trim(s: string, ws: char -> bool): (r: string)
    ensures exists i, j ::
              0 <= i <= j <= |s| && r == s[i..j]
              && (forall k :: 0 <= k < i ==> ws(s[k]))
              && (forall k :: j <= k < |s| ==> ws(s[k]))
    ensures r != [] ==> !ws(r[0]) && !ws(r[|r| - 1])
  {
    var i := LeadingCount(s, ws);
    var t := s[i..];
    var j := TrailingCount(t, ws);
    var e := i + |t| - j;
    assert t[..|t| - j] == s[i..e];
    assert forall k :: e <= k < |s| ==> ws(s[k]) by {
      forall k | e <= k < |s| ensures ws(s[k]) {
        assert s[k] == t[k - i];
      }
    }
    assert 0 <= i <= e <= |s| && (forall k :: 0 <= k < i ==> ws(s[k]));
    t[..|t| - j]
  }

  /** JavaScript `s.trim()`. */
  function JsTrim(s: string): string { Trim(s, IsJsWhitespace) }

  /** Python `s.strip()`. */
  function PyStrip(s: string): string { Trim(s, IsPyWhitespace) }

  function DigitChar(d: nat): char
    requires d < 10
  {
    "0123456789"[d]
  }

  /** Decimal digits of a natural number, without leading zeros. */
  function NatToString(n: nat): (r: string)
    ensures |r| > 0 && forall k :: 0 <= k < |r| ==> '0' <= r[k] <= '9'
  {
    if n < 10 then [DigitChar(n)] else NatToString(n / 10) + [DigitChar(n % 10)]
  }

  /** JavaScript's rendering of an integral number in a template literal. */
  function IntToString(n: int): string
  {
    if n < 0 then "-" + NatToString(-n) else NatToString(n)
  }

  /** `parts` joined with `sep` between consecutive parts (JavaScript `Array.prototype.join`
      over strings). */
  function Join(parts: seq<string>, sep: string): string
  {
    if |parts| == 0 then ""
    else if |parts| == 1 then parts[0]
    else parts[0] + sep + Join(parts[1..], sep)
  }
}
