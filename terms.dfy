/** `extract_months_from_term`: the number of months a term description such
    as "24 months", "2 years" or "two years" names. */
module Terms {
  import opened Wrappers
  import opened Text

  /** The pattern `(\d+)\s*<unit>s?` matches at offset q. Greedy `\d+` and
      `\s*` cannot usefully give characters back (a digit or a space cannot
      start the unit), so the match is: the maximal digit run from q, the
      maximal whitespace run after it, then the unit; the optional plural `s`
      never decides whether there is a match. */
  predicate UnitMatchAt(t: string, q: nat, unit: string)
    requires q <= |t|
  {
    q < |t| && IsDigit(t[q]) && OccursAt(t, SpaceRunEnd(t, DigitRunEnd(t, q)), unit)
  }

  /** The offset where `re.search` finds the pattern, scanning from q. */
  function MatchOffset(t: string, unit: string, q: nat): (r: Option<nat>)
    requires q <= |t|
    ensures r.Some? ==> q <= r.value < |t| && UnitMatchAt(t, r.value, unit)
    ensures r.Some? ==> forall k :: q <= k < r.value ==> !UnitMatchAt(t, k, unit)
    ensures r.None? ==> forall k :: q <= k <= |t| ==> !UnitMatchAt(t, k, unit)
    decreases |t| - q
  {
    if q == |t| then None
    else if UnitMatchAt(t, q, unit) then Some(q)
    else MatchOffset(t, unit, q + 1)
  }

  /** `int(match.group(1))`: the value of the digit run captured at q. */
  function RunValue(t: string, q: nat): nat
    requires q <= |t|
  {
    DecimalValue(t[q..DigitRunEnd(t, q)])
  }

  /** A digit run begins at q (rather than continuing one). */
  predicate RunStart(t: string, q: nat) {
    q < |t| && IsDigit(t[q]) && (q == 0 || !IsDigit(t[q - 1]))
  }

  lemma RunEndFromInside(t: string, q: nat)
    requires 0 < q < |t| && IsDigit(t[q - 1])
    ensures DigitRunEnd(t, q - 1) == DigitRunEnd(t, q)
  {
  }

  /** The match `re.search` finds begins a digit run: the number it reports is
      a whole run of digits, never the tail of a longer one. */
  lemma MatchBeginsRun(t: string, unit: string)
    requires MatchOffset(t, unit, 0).Some?
    ensures RunStart(t, MatchOffset(t, unit, 0).value)
  {
    var p := MatchOffset(t, unit, 0).value;
    if p > 0 && IsDigit(t[p - 1]) {
      MatchFromInside(t, p, unit);
    }
  }

  /** A match inside a digit run would also be a match one digit earlier. */
  lemma MatchFromInside(t: string, q: nat, unit: string)
    requires 0 < q < |t| && IsDigit(t[q - 1]) && UnitMatchAt(t, q, unit)
    ensures UnitMatchAt(t, q - 1, unit)
  {
    RunEndFromInside(t, q);
  }

  /** The number words and their values, in the dictionary's order. */
  const NumberWords: seq<(string, nat)> := [
    ("one", 1), ("two", 2), ("three", 3), ("four", 4), ("five", 5),
    ("six", 6), ("seven", 7), ("eight", 8), ("nine", 9), ("ten", 10),
    ("eleven", 11), ("twelve", 12), ("twenty-four", 24), ("thirty-six", 36)
  ]

  /** The same table with the compound words first, so that "twenty-four"
      is tried before "four" and "thirty-six" before "six". */
  const CompoundsFirst: seq<(string, nat)> := [
    ("twenty-four", 24), ("thirty-six", 36),
    ("one", 1), ("two", 2), ("three", 3), ("four", 4), ("five", 5),
    ("six", 6), ("seven", 7), ("eight", 8), ("nine", 9), ("ten", 10),
    ("eleven", 11), ("twelve", 12)
  ]

  /** The number word at position k matches, as a month count or a year count. */
  predicate WordHit(t: string, words: seq<(string, nat)>, k: nat)
    requires k < |words|
  {
    Contains(t, words[k].0 + " month") || Contains(t, words[k].0 + " year")
  }

  /** The loop over the number words from position k: for each word,
      "<word> month" is tried before "<word> year"; the first hit returns. */
  function WordScan(t: string, words: seq<(string, nat)>, k: nat): (r: Option<nat>)
    requires k <= |words|
    ensures r.None? <==> forall j :: k <= j < |words| ==> !WordHit(t, words, j)
    decreases |words| - k
  {
    if k == |words| then None
    else
      var (word, n) := words[k];
      if Contains(t, word + " month") then assert WordHit(t, words, k); Some(n)
      else if Contains(t, word + " year") then assert WordHit(t, words, k); Some(12 * n)
      else WordScan(t, words, k + 1)
  }

  /** The three rules of `extract_months_from_term`, with the number words
      tried in the order of `words`. */
  function MonthsBy(term: string, words: seq<(string, nat)>): Option<nat> {
    var t := Lower(term);
    match MatchOffset(t, "month", 0)
    case Some(p) => Some(RunValue(t, p))
    case None =>
      match MatchOffset(t, "year", 0)
      case Some(p) => Some(12 * RunValue(t, p))
      case None => WordScan(t, words, 0)
  }

  /** `extract_months_from_term(term)` exactly as written: the number words in
      the dictionary's order. */
  function MonthsFromTermAsWritten(term: string): Option<nat> {
    MonthsBy(term, NumberWords)
  }

  /** `extract_months_from_term(term)` as intended: a compound number word
      counts before its last part. */
  function MonthsFromTerm(term: string): Option<nat> {
    MonthsBy(term, CompoundsFirst)
  }

  /** What the word loop returns: the first word (in table order) that
      occurs before " month" or " year" decides, months before years. */
  lemma {:induction false} WordScanFirstHit(t: string, words: seq<(string, nat)>, k: nat)
    requires k <= |words|
    ensures WordScan(t, words, k).Some? ==>
      exists j :: k <= j < |words| && WordScanPicks(t, words, k, j, WordScan(t, words, k).value)
    decreases |words| - k
  {
    if k < |words| && !WordHit(t, words, k) {
      WordScanFirstHit(t, words, k + 1);
      if WordScan(t, words, k).Some? {
        var j :| k + 1 <= j < |words| && WordScanPicks(t, words, k + 1, j, WordScan(t, words, k + 1).value);
        assert WordScanPicks(t, words, k, j, WordScan(t, words, k).value);
      }
    } else if k < |words| {
      assert WordScanPicks(t, words, k, k, WordScan(t, words, k).value);
    }
  }

  /** The word at j is the first from k on that hits, and `n` is what it
      yields. */
  predicate WordScanPicks(t: string, words: seq<(string, nat)>, k: nat, j: nat, n: nat)
    requires j < |words|
  {
    && (forall i :: k <= i < j ==> !WordHit(t, words, i))
    && var (word, v) := words[j];
       if Contains(t, word + " month") then n == v
       else Contains(t, word + " year") && n == 12 * v
  }

  /** The three rules in order: the first digit run followed by "month" gives
      its number; failing that, the first digit run followed by "year" gives
      twelve times its number; failing that, the word scan; nothing matched
      gives None. */
  lemma MonthsFromTermRules(term: string)
    ensures var t := Lower(term);
      && (MatchOffset(t, "month", 0).Some? ==>
            var p := MatchOffset(t, "month", 0).value;
            RunStart(t, p) && MonthsFromTermAsWritten(term) == Some(RunValue(t, p)))
      && (MatchOffset(t, "month", 0).None? && MatchOffset(t, "year", 0).Some? ==>
            var p := MatchOffset(t, "year", 0).value;
            RunStart(t, p) && MonthsFromTermAsWritten(term) == Some(12 * RunValue(t, p)))
      && (MatchOffset(t, "month", 0).None? && MatchOffset(t, "year", 0).None? ==>
            MonthsFromTermAsWritten(term) == WordScan(t, NumberWords, 0))
      && (MonthsFromTermAsWritten(term).None? <==>
            && (forall k :: 0 <= k <= |t| ==> !UnitMatchAt(t, k, "month") && !UnitMatchAt(t, k, "year"))
            && (forall j :: 0 <= j < |NumberWords| ==> !WordHit(t, NumberWords, j)))
  {
    var t := Lower(term);
    if MatchOffset(t, "month", 0).Some? {
      MatchBeginsRun(t, "month");
    } else if MatchOffset(t, "year", 0).Some? {
      MatchBeginsRun(t, "year");
    }
  }

  // ------------------------------------------------ the compound number words

  /** A pattern that contains another at its end: whatever contains the
      longer one contains the shorter. */
  lemma ContainsTail(t: string, a: string, b: string)
    requires Contains(t, a + b)
    ensures Contains(t, b)
  {
    ContainsMeans(t, a + b);
    ContainsMeans(t, b);
    var k: nat :| OccursAt(t, k, a + b);
    assert t[k + |a|..k + |a| + |b|] == t[k..k + |a + b|][|a|..];
    assert OccursAt(t, k + |a|, b);
  }

  /** In the dictionary's order, a text that hits a compound entry
      ("twenty-four", "thirty-six") already hits its last part ("four",
      "six"), which comes earlier in the table. */
  lemma CompoundHitsPart(t: string)
    ensures WordHit(t, NumberWords, 12) ==> WordHit(t, NumberWords, 3)
    ensures WordHit(t, NumberWords, 13) ==> WordHit(t, NumberWords, 5)
  {
    assert NumberWords[12].0 == "twenty-" + NumberWords[3].0;
    assert NumberWords[13].0 == "thirty-" + NumberWords[5].0;
    CompoundHitsPartOf(t, "twenty-", NumberWords[3].0);
    CompoundHitsPartOf(t, "thirty-", NumberWords[5].0);
  }

  lemma CompoundHitsPartOf(t: string, pre: string, part: string)
    ensures Contains(t, pre + part + " month") ==> Contains(t, part + " month")
    ensures Contains(t, pre + part + " year") ==> Contains(t, part + " year")
  {
    assert pre + part + " month" == pre + (part + " month");
    assert pre + part + " year" == pre + (part + " year");
    if Contains(t, pre + part + " month") {
      ContainsTail(t, pre, part + " month");
    }
    if Contains(t, pre + part + " year") {
      ContainsTail(t, pre, part + " year");
    }
  }

  /** As written, the compound entries never decide the word scan: whatever
      the text, the entry the scan stops at is not a compound one. */
  lemma CompoundsNeverDecide(t: string, j: nat, n: nat)
    requires 12 <= j < |NumberWords|
    ensures !WordScanPicks(t, NumberWords, 0, j, n)
  {
    CompoundHitsPart(t);
  }

  /** With the compounds first, a "twenty-four month" phrase gives 24, and a
      "thirty-six month" phrase without it gives 36. */
  lemma CompoundsFirstDecide(t: string)
    ensures Contains(t, "twenty-four month") ==> WordScan(t, CompoundsFirst, 0) == Some(24)
    ensures !WordHit(t, CompoundsFirst, 0) && Contains(t, "thirty-six month") ==>
      WordScan(t, CompoundsFirst, 0) == Some(36)
  {
    assert CompoundsFirst[0].0 + " month" == "twenty-four month";
    assert CompoundsFirst[1].0 + " month" == "thirty-six month";
  }

  /** The correction changes nothing for a text with no compound phrase: the
      two word orders then give the same result. */
  lemma CorrectionOnlyForCompounds(t: string)
    requires !WordHit(t, NumberWords, 12) && !WordHit(t, NumberWords, 13)
    ensures WordScan(t, CompoundsFirst, 0) == WordScan(t, NumberWords, 0)
  {
    var basic := NumberWords[..12];
    var compounds := NumberWords[12..];
    assert NumberWords == basic + compounds;
    assert CompoundsFirst == compounds + basic;
    assert !WordHit(t, compounds, 0) && !WordHit(t, compounds, 1) by {
      assert compounds[0] == NumberWords[12] && compounds[1] == NumberWords[13];
    }
    assert WordScan(t, compounds + basic, 0) == WordScan(t, compounds + basic, 2) by {
      assert (compounds + basic)[0] == compounds[0] && (compounds + basic)[1] == compounds[1];
    }
    ScanAfter(t, compounds, basic, 0);
    ScanBefore(t, basic, compounds, 0);
  }

  /** Scanning a table past a prefix is scanning the rest. */
  lemma {:induction false} ScanAfter(t: string, pre: seq<(string, nat)>, words: seq<(string, nat)>, i: nat)
    requires i <= |words|
    ensures WordScan(t, pre + words, |pre| + i) == WordScan(t, words, i)
    decreases |words| - i
  {
    if i < |words| {
      assert (pre + words)[|pre| + i] == words[i];
      ScanAfter(t, pre, words, i + 1);
    }
  }

  /** Entries after the ones scanned that never hit change nothing. */
  lemma {:induction false} ScanBefore(t: string, words: seq<(string, nat)>, extra: seq<(string, nat)>, i: nat)
    requires i <= |words|
    requires forall j :: 0 <= j < |extra| ==> !WordHit(t, extra, j)
    ensures WordScan(t, words + extra, i) == WordScan(t, words, i)
    decreases |words| - i
  {
    if i < |words| {
      assert (words + extra)[i] == words[i];
      ScanBefore(t, words, extra, i + 1);
    } else {
      ScanAfter(t, words, extra, 0);
    }
  }

  const YearsOrMonths: string := "2 years or 24 months"

  /** A month count stated in digits wins over a year count anywhere in the
      term: "2 years or 24 months" gives 24. */
  lemma YearsOrMonthsGivesMonths()
    ensures MonthsFromTermAsWritten(YearsOrMonths) == Some(24)
  {
    var t := YearsOrMonths;
    LowerIdentity(t);
    MonthMatchInYearsOrMonths();
    assert MonthsFromTermAsWritten(t) == Some(RunValue(t, 11));
    RunValue24();
  }

  lemma RunValue24()
    ensures RunValue(YearsOrMonths, 11) == 24
  {
    var t := YearsOrMonths;
    assert DigitRunEnd(t, 13) == 13;
    assert DigitRunEnd(t, 11) == 13;
    assert t[11..13] == "24";
    assert "24"[..1] == "2" && "2"[..0] == "";
  }

  lemma MonthMatchInYearsOrMonths()
    ensures MatchOffset(YearsOrMonths, "month", 0) == Some(11)
  {
    var t := YearsOrMonths;
    MonthAtEleven();
    assert MatchOffset(t, "month", 11) == Some(11);
    NoMonthAtZero();
    assert MatchOffset(t, "month", 0) == MatchOffset(t, "month", 1);
    DigitFreeOneToEleven();
    MatchOffsetSkip(t, "month", 1, 11);
  }

  lemma DigitFreeOneToEleven()
    ensures DigitFree(YearsOrMonths, 1, 11)
  {
  }

  lemma MonthAtEleven()
    ensures UnitMatchAt(YearsOrMonths, 11, "month")
  {
    var t := YearsOrMonths;
    assert DigitRunEnd(t, 13) == 13;
    assert DigitRunEnd(t, 11) == 13;
    assert SpaceRunEnd(t, 14) == 14;
    assert SpaceRunEnd(t, 13) == 14;
    assert t[14..19] == "month";
  }

  lemma NoMonthAtZero()
    ensures !UnitMatchAt(YearsOrMonths, 0, "month")
  {
    var t := YearsOrMonths;
    assert DigitRunEnd(t, 1) == 1;
    assert SpaceRunEnd(t, 2) == 2;
    assert SpaceRunEnd(t, 1) == 2;
    assert t[2..7][0] != "month"[0];
  }

  /** No digit occurs in s[lo..hi]; decided character by character. */
  predicate DigitFree(s: string, lo: nat, hi: nat)
    requires lo <= hi <= |s|
    decreases hi - lo
  {
    lo == hi || (!IsDigit(s[lo]) && DigitFree(s, lo + 1, hi))
  }

  /** The scan passes over a stretch without digits: no match can start
      there. */
  lemma {:induction false} MatchOffsetSkip(t: string, unit: string, q: nat, p: nat)
    requires q <= p <= |t| && DigitFree(t, q, p)
    ensures MatchOffset(t, unit, q) == MatchOffset(t, unit, p)
    decreases p - q
  {
    if q < p {
      MatchOffsetSkip(t, unit, q + 1, p);
    }
  }

  /** Both example terms are already in lower case. */
  lemma LowerIdentity(t: string)
    requires t == YearsOrMonths || t == TwentyFourMonths
    ensures Lower(t) == t
  {
    assert forall k :: 0 <= k < |t| ==> LowerChar(t[k]) == t[k];
  }

  const TwentyFourMonths: string := "twenty-four months"

  /** As written, number words are tried in dictionary order, so
      "twenty-four months" yields 4: "four month" is found before
      "twenty-four month". */
  lemma TwentyFourMonthsGivesFour()
    ensures MonthsFromTermAsWritten(TwentyFourMonths) == Some(4)
  {
    var t := TwentyFourMonths;
    LowerIdentity(t);
    NoDigitsNoMatch(t, "month");
    NoDigitsNoMatch(t, "year");
    assert MonthsFromTermAsWritten(t) == WordScan(t, NumberWords, 0);
    WordScanTwentyFour();
  }

  /** With the compounds first, "twenty-four months" yields 24. */
  lemma TwentyFourMonthsGivesTwentyFour()
    ensures MonthsFromTerm(TwentyFourMonths) == Some(24)
  {
    var t := TwentyFourMonths;
    LowerIdentity(t);
    NoDigitsNoMatch(t, "month");
    NoDigitsNoMatch(t, "year");
    assert MonthsFromTerm(t) == WordScan(t, CompoundsFirst, 0);
    ContainsMeans(t, "twenty-four month");
    assert OccursAt(t, 0, "twenty-four month");
    CompoundsFirstDecide(t);
  }

  lemma WordScanTwentyFour()
    ensures WordScan(TwentyFourMonths, NumberWords, 0) == Some(4)
  {
    SkipOne();
    SkipTwo();
    SkipThree();
    FourHits();
  }

  lemma FourHits()
    ensures WordScan(TwentyFourMonths, NumberWords, 3) == Some(4)
  {
    assert NumberWords[3] == ("four", 4);
    assert "four" + " month" == "four month";
    FourMonthFound();
  }

  lemma SkipOne()
    ensures WordScan(TwentyFourMonths, NumberWords, 0) == WordScan(TwentyFourMonths, NumberWords, 1)
  {
    assert NumberWords[0] == ("one", 1);
    PhraseAbsent("one", " month");
    PhraseAbsent("one", " year");
  }

  lemma SkipTwo()
    ensures WordScan(TwentyFourMonths, NumberWords, 1) == WordScan(TwentyFourMonths, NumberWords, 2)
  {
    assert NumberWords[1] == ("two", 2);
    PhraseAbsent("two", " month");
    PhraseAbsent("two", " year");
  }

  lemma SkipThree()
    ensures WordScan(TwentyFourMonths, NumberWords, 2) == WordScan(TwentyFourMonths, NumberWords, 3)
  {
    assert NumberWords[2] == ("three", 3);
    PhraseAbsent("three", " month");
    PhraseAbsent("three", " year");
  }

  lemma FourMonthFound()
    ensures Contains(TwentyFourMonths, "four month")
  {
    ContainsMeans(TwentyFourMonths, "four month");
    assert OccursAt(TwentyFourMonths, 7, "four month");
  }

  lemma NoDigitsNoMatch(t: string, unit: string)
    requires t == TwentyFourMonths
    ensures MatchOffset(t, unit, 0).None?
  {
    TwentyFourMonthsDigitFree();
    MatchOffsetSkip(t, unit, 0, |t|);
  }

  /** The only space of "twenty-four months" is at offset 11, so a phrase
      "<word> <unit>" can only occur with its space there, and it does not. */
  lemma PhraseAbsent(word: string, unit: string)
    requires word == "one" || word == "two" || word == "three"
    requires unit == " month" || unit == " year"
    ensures !Contains(TwentyFourMonths, word + unit)
  {
    ContainsMeans(TwentyFourMonths, word + unit);
    forall k | 0 <= k ensures !OccursAt(TwentyFourMonths, k, word + unit) {
      PhraseNotAt(word, unit, k);
    }
  }

  lemma PhraseNotAt(word: string, unit: string, k: nat)
    requires word == "one" || word == "two" || word == "three"
    requires unit == " month" || unit == " year"
    ensures !OccursAt(TwentyFourMonths, k, word + unit)
  {
    var t := TwentyFourMonths;
    var pat := word + unit;
    if k + |pat| <= |t| {
      var w := |word|;
      assert pat[w] == ' ';
      if k + w != 11 {
        TwentyFourMonthsSpace();
        assert t[k + w] != ' ';
        assert t[k..k + |pat|][w] == t[k + w];
      } else if unit == " year" {
        assert t[12] == 'm' && pat[w + 1] == 'y';
        assert t[k..k + |pat|][w + 1] == t[12];
      } else if word == "one" {
        assert t[9] == 'u' && pat[1] == 'n';
        assert t[k..k + |pat|][1] == t[9];
      } else if word == "two" {
        assert t[8] == 'o' && pat[0] == 't';
        assert t[k..k + |pat|][0] == t[8];
      } else {
        assert t[6] == '-' && pat[0] == 't';
        assert t[k..k + |pat|][0] == t[6];
      }
    }
  }

  lemma TwentyFourMonthsSpace()
    ensures forall k :: 0 <= k < |TwentyFourMonths| && TwentyFourMonths[k] == ' ' ==> k == 11
  {
    assert CharAbsent(TwentyFourMonths, ' ', 0, 11);
    assert CharAbsent(TwentyFourMonths, ' ', 12, 18);
    CharAbsentMeans(TwentyFourMonths, ' ', 0, 11);
    CharAbsentMeans(TwentyFourMonths, ' ', 12, 18);
  }

  lemma TwentyFourMonthsDigitFree()
    ensures DigitFree(TwentyFourMonths, 0, |TwentyFourMonths|)
  {
    assert DigitFree(TwentyFourMonths, 9, 18);
    assert DigitFree(TwentyFourMonths, 0, 18);
  }

  /** A term without digits that is shorter than every "<word> month" and
      "<word> year" phrase names no month count. */
  lemma ShortWordlessTermGivesNone(term: string)
    requires |term| < 8
    requires forall i :: 0 <= i < |term| ==> !IsDigit(term[i])
    ensures MonthsFromTermAsWritten(term).None?
  {
    var t := Lower(term);
    assert forall i :: 0 <= i < |t| ==> !IsDigit(t[i]) by {
      forall i | 0 <= i < |t| ensures !IsDigit(t[i]) {
        assert t[i] == LowerChar(term[i]);
      }
    }
    assert MatchOffset(t, "month", 0).None? && MatchOffset(t, "year", 0).None?;
    WordsAtLeastThree();
    forall j | 0 <= j < |NumberWords| ensures !WordHit(t, NumberWords, j) {
      var w := NumberWords[j].0;
      ShortTextLacks(t, w + " month");
      ShortTextLacks(t, w + " year");
    }
    assert WordScan(t, NumberWords, 0).None?;
  }

  lemma WordsAtLeastThree()
    ensures forall j :: 0 <= j < |NumberWords| ==> |NumberWords[j].0| >= 3
  {
  }

  /** A text shorter than a pattern does not contain it. */
  lemma ShortTextLacks(t: string, pat: string)
    requires |t| < |pat|
    ensures !Contains(t, pat)
  {
    ContainsMeans(t, pat);
  }
}
