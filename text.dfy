/** The few string operations of Python that the backend relies on, with the
    semantics of CPython: `str.isspace`/`str.strip`, ASCII `str.lower`, runs of
    decimal digits, `in` on strings, `str.join` and decimal rendering of
    integers. */
module Text {

  /** An ASCII decimal digit. */
  predicate IsDigit(c: char) {
    '0' <= c <= '9'
  }

  predicate AllDigits(s: string) {
    forall i :: 0 <= i < |s| ==> IsDigit(s[i])
  }

  function DigitValue(c: char): (v: nat)
    requires IsDigit(c)
    ensures v < 10
  {
    (c as int) - ('0' as int)
  }

  function DigitChar(v: nat): (c: char)
    requires v < 10
    ensures IsDigit(c) && DigitValue(c) == v
  {
    (('0' as int) + v) as char
  }

  lemma DigitCharOfValue(c: char)
    requires IsDigit(c)
    ensures DigitChar(DigitValue(c)) == c
  {
  }

  /** The characters CPython treats as whitespace in `str.strip()`,
      `str.isspace()`, `int()` and the regular-expression class `\s`. */
  predicate IsSpace(c: char) {
    || ('\t' <= c <= '\r')
    || ('\U{1C}' <= c <= '\U{1F}')
    || c == ' ' || c == '\U{85}' || c == '\U{A0}' || c == '\U{1680}'
    || ('\U{2000}' <= c <= '\U{200A}')
    || c == '\U{2028}' || c == '\U{2029}' || c == '\U{202F}' || c == '\U{205F}' || c == '\U{3000}'
  }

  /** The character c does not occur in s[lo..hi]. */
  predicate CharAbsent(s: string, c: char, lo: nat, hi: nat)
    requires lo <= hi <= |s|
    decreases hi - lo
  {
    lo == hi || (s[lo] != c && CharAbsent(s, c, lo + 1, hi))
  }

  lemma {:induction false} CharAbsentMeans(s: string, c: char, lo: nat, hi: nat)
    requires lo <= hi <= |s| && CharAbsent(s, c, lo, hi)
    ensures forall k :: lo <= k < hi ==> s[k] != c
    decreases hi - lo
  {
    if lo < hi {
      CharAbsentMeans(s, c, lo + 1, hi);
    }
  }

  /** Empty or made only of whitespace: `not s.strip()` in Python. */
  predicate IsBlank(s: string) {
    forall i :: 0 <= i < |s| ==> IsSpace(s[i])
  }

  function LeadingSpaces(s: string): (n: nat)
    ensures n <= |s|
    ensures IsBlank(s[..n])
    ensures n < |s| ==> !IsSpace(s[n])
  {
    if s == [] || !IsSpace(s[0]) then 0
    else
      var k := LeadingSpaces(s[1..]);
      assert s[..k + 1] == [s[0]] + s[1..][..k];
      1 + k
  }

  function TrailingSpaces(s: string): (n: nat)
    ensures n <= |s|
    ensures IsBlank(s[|s| - n..])
    ensures n < |s| ==> !IsSpace(s[|s| - 1 - n])
  {
    if s == [] || !IsSpace(s[|s| - 1]) then 0
    else
      var t := s[..|s| - 1];
      var k := TrailingSpaces(t);
      assert s[|s| - (k + 1)..] == t[|t| - k..] + [s[|s| - 1]];
      1 + k
  }

  /** Python's `s.strip()`: the text between the leading and the trailing
      whitespace. */
  function Strip(s: string): (r: string)
    ensures |r| <= |s|
    ensures r == [] <==> IsBlank(s)
    ensures r != [] ==> !IsSpace(r[0]) && !IsSpace(r[|r| - 1])
  {
    var a := LeadingSpaces(s);
    if a == |s| then
      assert s[..a] == s;
      []
    else
      var b := TrailingSpaces(s);
      BlankSuffix(s, b);
      assert !IsBlank(s) by { assert !IsSpace(s[a]); }
      s[a..|s| - b]
  }

  /** Every character of a blank suffix is whitespace. */
  lemma BlankSuffix(s: string, n: nat)
    requires n <= |s| && IsBlank(s[|s| - n..])
    ensures forall i :: |s| - n <= i < |s| ==> IsSpace(s[i])
  {
    forall i | |s| - n <= i < |s| ensures IsSpace(s[i]) {
      assert s[i] == s[|s| - n..][i - (|s| - n)];
    }
  }

  /** The offset in `s` of the text `Strip(s)` returns. */
  lemma StripIsInfix(s: string)
    ensures LeadingSpaces(s) + |Strip(s)| <= |s|
    ensures Strip(s) == s[LeadingSpaces(s)..LeadingSpaces(s) + |Strip(s)|]
    ensures IsBlank(s[..LeadingSpaces(s)])
    ensures IsBlank(s[LeadingSpaces(s) + |Strip(s)|..])
  {
    var a := LeadingSpaces(s);
    var b := TrailingSpaces(s);
    var r := Strip(s);
    if a == |s| {
      assert r == [] && s[a..] == [];
    } else {
      assert r == s[a..|s| - b];
      assert a + |r| == |s| - b;
      assert s[a + |r|..] == s[|s| - b..];
    }
  }

  /** Stripping twice is stripping once. */
  lemma StripIdempotent(s: string)
    ensures Strip(Strip(s)) == Strip(s)
  {
    var r := Strip(s);
    if r != [] {
      assert LeadingSpaces(r) == 0;
      assert TrailingSpaces(r) == 0;
      assert r[0..|r|] == r;
    }
  }

  function LowerChar(c: char): char {
    if 'A' <= c <= 'Z' then ((c as int) + 32) as char else c
  }

  /** Python's `s.lower()` on ASCII letters; other characters are kept. */
  function Lower(s: string): (r: string)
    ensures |r| == |s|
    ensures forall i :: 0 <= i < |s| ==> r[i] == LowerChar(s[i])
  {
    seq(|s|, i requires 0 <= i < |s| => LowerChar(s[i]))
  }

  /** The end of the maximal run of digits starting at `i`. */
  function DigitRunEnd(s: string, i: nat): (e: nat)
    requires i <= |s|
    ensures i <= e <= |s|
    ensures AllDigits(s[i..e])
    ensures e < |s| ==> !IsDigit(s[e])
    decreases |s| - i
  {
    if i < |s| && IsDigit(s[i]) then
      var e := DigitRunEnd(s, i + 1);
      assert s[i..e] == [s[i]] + s[i + 1..e];
      e
    else i
  }

  /** The end of the maximal run of whitespace starting at `i`. */
  function SpaceRunEnd(s: string, i: nat): (e: nat)
    requires i <= |s|
    ensures i <= e <= |s|
    ensures IsBlank(s[i..e])
    ensures e < |s| ==> !IsSpace(s[e])
    decreases |s| - i
  {
    if i < |s| && IsSpace(s[i]) then
      var e := SpaceRunEnd(s, i + 1);
      assert s[i..e] == [s[i]] + s[i + 1..e];
      e
    else i
  }

  /** The value of a string of decimal digits. */
  function DecimalValue(s: string): nat
    requires AllDigits(s)
  {
    if s == [] then 0 else 10 * DecimalValue(s[..|s| - 1]) + DigitValue(s[|s| - 1])
  }

  /** `str(n)` for a natural number: its shortest decimal rendering. */
  function NatToString(n: nat): (r: string)
    ensures |r| >= 1 && AllDigits(r)
  {
    if n < 10 then [DigitChar(n)] else NatToString(n / 10) + [DigitChar(n % 10)]
  }

  /** Reading back the decimal rendering of `n` gives `n`, and the rendering
      has no leading zero. */
  lemma {:induction false} NatToStringRoundTrip(n: nat)
    ensures DecimalValue(NatToString(n)) == n
    ensures NatToString(n)[0] == '0' ==> n == 0
  {
    if n >= 10 {
      NatToStringRoundTrip(n / 10);
      var s := NatToString(n);
      assert s[..|s| - 1] == NatToString(n / 10);
    }
  }

  lemma NatToStringInjective(a: nat, b: nat)
    requires NatToString(a) == NatToString(b)
    ensures a == b
  {
    NatToStringRoundTrip(a);
    NatToStringRoundTrip(b);
  }

  /** Python's `str(i)` for an integer. */
  function IntToString(i: int): (r: string)
    ensures |r| >= 1
    ensures i >= 0 <==> IsDigit(r[0])
  {
    if i < 0 then "-" + NatToString(-i) else NatToString(i)
  }

  /** Distinct integers have distinct renderings. */
  lemma IntToStringInjective(a: int, b: int)
    requires IntToString(a) == IntToString(b)
    ensures a == b
  {
    if a < 0 && b < 0 {
      assert NatToString(-a) == IntToString(a)[1..];
      assert NatToString(-b) == IntToString(b)[1..];
      NatToStringInjective(-a, -b);
    } else if a >= 0 && b >= 0 {
      NatToStringInjective(a, b);
    }
  }

  /** `pat` occurs in `s` at offset `i`. */
  predicate OccursAt(s: string, i: nat, pat: string) {
    i + |pat| <= |s| && s[i..i + |pat|] == pat
  }

  predicate ContainsFrom(s: string, pat: string, i: nat)
    decreases |s| - i
  {
    i + |pat| <= |s| && (s[i..i + |pat|] == pat || ContainsFrom(s, pat, i + 1))
  }

  /** Python's `pat in s` on strings. */
  predicate Contains(s: string, pat: string) {
    ContainsFrom(s, pat, 0)
  }

  lemma {:induction false} ContainsFromMeans(s: string, pat: string, i: nat)
    ensures ContainsFrom(s, pat, i) <==> exists k :: i <= k && OccursAt(s, k, pat)
    decreases |s| - i
  {
    if i + |pat| <= |s| {
      ContainsFromMeans(s, pat, i + 1);
      if s[i..i + |pat|] == pat {
        assert OccursAt(s, i, pat);
      }
      if exists k :: i <= k && OccursAt(s, k, pat) {
        var k :| i <= k && OccursAt(s, k, pat);
        if k > i { assert i + 1 <= k; }
      }
    }
  }

  /** `pat in s` holds exactly when `pat` occurs at some offset of `s`. */
  lemma ContainsMeans(s: string, pat: string)
    ensures Contains(s, pat) <==> exists k :: OccursAt(s, k, pat)
  {
    ContainsFromMeans(s, pat, 0);
  }

  /** Python's `sep.join(xs)`. */
  function Join(sep: string, xs: seq<string>): string {
    if xs == [] then ""
    else if |xs| == 1 then xs[0]
    else Join(sep, xs[..|xs| - 1]) + sep + xs[|xs| - 1]
  }

  lemma JoinSnoc(sep: string, xs: seq<string>, x: string)
    requires xs != []
    ensures Join(sep, xs + [x]) == Join(sep, xs) + sep + x
  {
    assert (xs + [x])[..|xs|] == xs;
  }

  /** When the separator is whitespace, the joined text is blank exactly when
      every part is blank. */
  lemma {:induction false} JoinBlank(sep: string, xs: seq<string>)
    requires IsBlank(sep)
    ensures IsBlank(Join(sep, xs)) <==> forall i :: 0 <= i < |xs| ==> IsBlank(xs[i])
  {
    if |xs| > 1 {
      var init := xs[..|xs| - 1];
      JoinBlank(sep, init);
      var j := Join(sep, init) + sep + xs[|xs| - 1];
      assert Join(sep, xs) == j;
      if IsBlank(j) {
        forall i | 0 <= i < |xs| ensures IsBlank(xs[i]) {
          if i < |xs| - 1 {
            assert IsBlank(Join(sep, init)) by {
              forall k | 0 <= k < |Join(sep, init)| ensures IsSpace(Join(sep, init)[k]) {
                assert j[k] == Join(sep, init)[k];
              }
            }
            assert init[i] == xs[i];
          } else {
            forall k | 0 <= k < |xs[i]| ensures IsSpace(xs[i][k]) {
              assert j[|Join(sep, init)| + |sep| + k] == xs[i][k];
            }
          }
        }
      }
      if forall i :: 0 <= i < |xs| ==> IsBlank(xs[i]) {
        assert forall i :: 0 <= i < |init| ==> IsBlank(init[i]) by {
          forall i | 0 <= i < |init| ensures IsBlank(init[i]) { assert init[i] == xs[i]; }
        }
        assert IsBlank(xs[|xs| - 1]);
      }
    }
  }

  /** Where the last of the parts `ys` would end, plus one separator: the
      offset at which the next part starts in `Join(sep, ys + [next])`. */
  function PartsOffset(sep: string, ys: seq<string>): nat {
    if ys == [] then 0
    else PartsOffset(sep, ys[..|ys| - 1]) + |ys[|ys| - 1]| + |sep|
  }

  lemma {:induction false} JoinLength(sep: string, xs: seq<string>)
    requires xs != []
    ensures |Join(sep, xs)| + |sep| == PartsOffset(sep, xs)
  {
    if |xs| == 1 {
      assert xs[..0] == [];
    } else {
      JoinLength(sep, xs[..|xs| - 1]);
    }
  }

  /** Every part appears in the joined text, in order: part i starts right
      after the parts before it and their separators. */
  lemma {:induction false} JoinPartAt(sep: string, xs: seq<string>, i: nat)
    requires i < |xs|
    ensures OccursAt(Join(sep, xs), PartsOffset(sep, xs[..i]), xs[i])
  {
    var init := xs[..|xs| - 1];
    if i == |xs| - 1 {
      if |xs| == 1 {
        assert xs[..0] == [];
      } else {
        assert xs[..i] == init;
        JoinLength(sep, init);
        var j := Join(sep, init) + sep + xs[i];
        assert j[|Join(sep, init)| + |sep|..] == xs[i];
      }
    } else {
      JoinPartAt(sep, init, i);
      assert init[..i] == xs[..i];
      var off := PartsOffset(sep, xs[..i]);
      var j := Join(sep, init) + sep + xs[|xs| - 1];
      assert j[off..off + |xs[i]|] == Join(sep, init)[off..off + |xs[i]|];
    }
  }
}
