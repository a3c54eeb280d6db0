/**
 * The few JavaScript string operations the transformer relies on:
 * `trim`, `slice`, `startsWith`, `endsWith`, `includes` and number-to-string
 * conversion. A `char` stands for one UTF-16 code unit of a JavaScript string.
 */
module JsString {

  /** ECMAScript WhiteSpace and LineTerminator code points: what `String.prototype.trim` removes. */
  const Whitespace: set<char> := {
    '\t', '\n', '\U{000B}', '\U{000C}', '\r', ' ', '\U{00A0}', '\U{1680}',
    '\U{2000}', '\U{2001}', '\U{2002}', '\U{2003}', '\U{2004}', '\U{2005}',
    '\U{2006}', '\U{2007}', '\U{2008}', '\U{2009}', '\U{200A}',
    '\U{2028}', '\U{2029}', '\U{202F}', '\U{205F}', '\U{3000}', '\U{FEFF}'
  }

  predicate IsWhitespace(c: char) {
    c in Whitespace
  }

  predicate IsBlank(s: string) {
    forall i :: 0 <= i < |s| ==> IsWhitespace(s[i])
  }

  /** The end of the run of whitespace that starts at `i`. */
  function BlankRunFrom(s: string, i: nat): (n: nat)
    requires i <= |s|
    ensures i <= n <= |s|
    ensures forall k | i <= k < n :: IsWhitespace(s[k])
    ensures n == |s| || !IsWhitespace(s[n])
    decreases |s| - i
  {
    if i < |s| && IsWhitespace(s[i]) then BlankRunFrom(s, i + 1) else i
  }

  /** The start of the run of whitespace that ends at `j`, going back no further than `lo`. */
  function BlankRunBefore(s: string, lo: nat, j: nat): (n: nat)
    requires lo <= j <= |s|
    ensures lo <= n <= j
    ensures forall k | n <= k < j :: IsWhitespace(s[k])
    ensures n == lo || !IsWhitespace(s[n - 1])
    decreases j
  {
    if lo < j && IsWhitespace(s[j - 1]) then BlankRunBefore(s, lo, j - 1) else j
  }

  /**
   * `s.trim()`: the infix of `s` that neither starts nor ends with whitespace
   * and is surrounded by whitespace only; empty exactly when `s` is blank.
   */
  function Trim(s: string): (r: string)
    ensures |r| == 0 <==> IsBlank(s)
    ensures |r| > 0 ==> !IsWhitespace(r[0]) && !IsWhitespace(r[|r| - 1])
    ensures exists i | 0 <= i <= |s| - |r| ::
              s[i..i + |r|] == r && IsBlank(s[..i]) && IsBlank(s[i + |r|..])
  {
    var i := BlankRunFrom(s, 0);
    var e := BlankRunBefore(s, i, |s|);
    TrimBounds(s, i, e);
    s[i..e]
  }

  /** The slice between a leading and a trailing whitespace run is `trim`'s result. */
  lemma TrimBounds(s: string, i: nat, e: nat)
    requires i <= e <= |s|
    requires forall k | 0 <= k < i :: IsWhitespace(s[k])
    requires i == |s| || !IsWhitespace(s[i])
    requires forall k | e <= k < |s| :: IsWhitespace(s[k])
    requires e == i || !IsWhitespace(s[e - 1])
    ensures var r := s[i..e];
      (|r| == 0 <==> IsBlank(s))
      && (|r| > 0 ==> !IsWhitespace(r[0]) && !IsWhitespace(r[|r| - 1]))
      && s[i..i + |r|] == r && IsBlank(s[..i]) && IsBlank(s[i + |r|..])
  {
    var r := s[i..e];
    assert IsBlank(s[..i]) by {
      forall k | 0 <= k < i ensures IsWhitespace(s[..i][k]) {
        assert s[..i][k] == s[k];
      }
    }
    assert IsBlank(s[e..]) by {
      forall k | 0 <= k < |s| - e ensures IsWhitespace(s[e..][k]) {
        assert s[e..][k] == s[e + k];
      }
    }
    if e == i {
      assert IsBlank(s) by {
        forall k | 0 <= k < |s| ensures IsWhitespace(s[k]) {
          if k >= e {
            assert IsWhitespace(s[k]);
          }
        }
      }
    } else {
      assert r[0] == s[i] && r[|r| - 1] == s[e - 1];
    }
  }

  /** `s.startsWith(prefix)`. */
  predicate StartsWith(s: string, prefix: string) {
    prefix <= s
  }

  /** `s.endsWith(suffix)`. */
  predicate EndsWith(s: string, suffix: string) {
    |suffix| <= |s| && s[|s| - |suffix|..] == suffix
  }

  /** `s.includes(t)`: some position of `s` starts an occurrence of `t`. */
  predicate Contains(s: string, t: string)
    decreases |s|
  {
    StartsWith(s, t) || (|s| > 0 && Contains(s[1..], t))
  }

  /** An occurrence of a word is an occurrence of each of its prefixes. */
  lemma {:induction false} ContainsPrefix(s: string, t: string, u: string)
    requires StartsWith(t, u)
    requires Contains(s, t)
    ensures Contains(s, u)
    decreases |s|
  {
    if !StartsWith(s, t) {
      ContainsPrefix(s[1..], t, u);
    }
  }

  /** The index `slice` uses for a non-negative argument: clamped to the length. */
  function Clamp(i: nat, n: nat): (r: nat)
    ensures r <= n && r <= i
    ensures r == i || r == n
  {
    if i < n then i else n
  }

  /** `s.slice(from, to)` for non-negative arguments. */
  function Slice(s: string, from: nat, to: nat): (r: string)
    ensures from <= to <= |s| ==> r == s[from..to]
    ensures from <= |s| <= to ==> r == s[from..]
    ensures to <= from ==> r == []
    ensures |s| <= from ==> r == []
    ensures |r| <= |s|
  {
    var a := Clamp(from, |s|);
    var b := Clamp(to, |s|);
    if a < b then s[a..b] else []
  }

  /** `s.slice(from)` for a non-negative argument. */
  function SliceFrom(s: string, from: nat): (r: string)
    ensures from <= |s| ==> r == s[from..]
    ensures |s| <= from ==> r == []
  {
    s[Clamp(from, |s|)..]
  }

  predicate IsDigit(c: char) {
    '0' <= c <= '9'
  }

  predicate IsDigits(s: string) {
    forall i :: 0 <= i < |s| ==> IsDigit(s[i])
  }

  function DigitChar(d: nat): (c: char)
    requires d < 10
    ensures IsDigit(c) && c as int - '0' as int == d
  {
    ['0', '1', '2', '3', '4', '5', '6', '7', '8', '9'][d]
  }

  /** The decimal form JavaScript gives a non-negative integer in a template literal. */
  function NatToString(n: nat): (r: string)
    ensures |r| > 0 && IsDigits(r)
    ensures r[0] == '0' ==> n == 0
    decreases n
  {
    if n < 10 then [DigitChar(n)] else NatToString(n / 10) + [DigitChar(n % 10)]
  }

  /** Reads a run of decimal digits back as a number. */
  function ParseDigits(s: string): nat
    requires IsDigits(s)
  {
    if s == [] then 0
    else ParseDigits(s[..|s| - 1]) * 10 + (s[|s| - 1] as int - '0' as int)
  }

  lemma {:induction false} ParseNatToString(n: nat)
    ensures ParseDigits(NatToString(n)) == n
    decreases n
  {
    var r := NatToString(n);
    if n >= 10 {
      ParseNatToString(n / 10);
      assert r[..|r| - 1] == NatToString(n / 10);
    }
  }
}
