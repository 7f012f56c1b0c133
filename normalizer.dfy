/** `validate_and_normalize_data`: the extracted JSON object turned into typed
    contract terms. Four date fields parsed as YYYY-MM-DD, an end date derived
    from the start date and a term length, the notice period coerced to an
    integer, and two free-text fields trimmed. */
module Normalizer {
  import opened Wrappers
  import opened Text
  import opened Dates
  import opened JsonValues
  import opened Terms

  type Entries = seq<(string, Json)>

  /** The normalised dict. Every key is always present; None is Python's None. */
  datatype Normalized = Normalized(
    startDate: Option<Date>,
    endDate: Option<Date>,
    renewalDate: Option<Date>,
    noticeDeadline: Option<Date>,
    noticePeriodDays: Option<int>,
    renewalTerm: Option<string>,
    vendorName: Option<string>)

  const DateFields: seq<string> := ["start_date", "end_date", "renewal_date", "notice_deadline"]
  const StringFields: seq<string> := ["renewal_term", "vendor_name"]

  // ---------------------------------------------------------------- dates

  /** One date field: a present, truthy raw value whose `str()` is a valid
      YYYY-MM-DD date; anything else gives None. */
  function ParsedDate(data: Entries, field: string): (r: Option<Date>)
    ensures r.Some? ==> ValidDate(r.value)
  {
    match TruthyField(data, field)
    case None => None
    case Some(v) => ParseIso(PyStr(v))
  }

  /** A parsed date field was written in its canonical YYYY-MM-DD form. */
  lemma ParsedDateIsCanonical(data: Entries, field: string)
    requires ParsedDate(data, field).Some?
    ensures Lookup(data, field).Some? && Truthy(Lookup(data, field).value)
    ensures PyStr(Lookup(data, field).value) == FormatIso(ParsedDate(data, field).value)
  {
    IsoParseCanonical(PyStr(TruthyField(data, field).value));
  }

  /** Every valid date written as YYYY-MM-DD is read back. */
  lemma ParsedDateOfIso(data: Entries, field: string, d: Date)
    requires ValidDate(d) && Lookup(data, field) == Some(JString(FormatIso(d)))
    ensures ParsedDate(data, field) == Some(d)
  {
    IsoRoundTrip(d);
  }

  /** A missing or falsy raw value gives None. */
  lemma ParsedDateOfFalsy(data: Entries, field: string)
    requires Lookup(data, field).None? || !Truthy(Lookup(data, field).value)
    ensures ParsedDate(data, field).None?
  {
  }

  // ------------------------------------------------------------ term length

  /** A month count Python treats as true: present and non-zero. */
  predicate NonZero(m: Option<nat>) {
    m.Some? && m.value != 0
  }

  /** `renewal_term`, when it is a non-empty string, read as a term length. */
  function RenewalTermMonths(data: Entries): Option<nat> {
    match Lookup(data, "renewal_term")
    case Some(JString(s)) => if s != "" then MonthsFromTermAsWritten(s) else None
    case _ => None
  }

  /** A key naming a term length: its lower-cased form contains "term",
      "length" or "duration". */
  predicate NamesTerm(key: string) {
    var k := Lower(key);
    Contains(k, "term") || Contains(k, "length") || Contains(k, "duration")
  }

  /** Entry i is one the key scan stops at: a string value under a key naming a
      term length, giving a non-zero month count. */
  predicate ScanHit(data: Entries, i: nat)
    requires i < |data|
  {
    data[i].1.JString? && NamesTerm(data[i].0) && NonZero(MonthsFromTermAsWritten(data[i].1.s))
  }

  /** Where the scan over `data.items()` from entry i stops: the first hit. */
  function HitIndex(data: Entries, i: nat): (r: Option<nat>)
    requires i <= |data|
    ensures r.Some? ==> i <= r.value < |data| && ScanHit(data, r.value)
    ensures r.Some? ==> forall k :: i <= k < r.value ==> !ScanHit(data, k)
    ensures r.None? ==> forall k :: i <= k < |data| ==> !ScanHit(data, k)
    decreases |data| - i
  {
    if i == |data| then None
    else if ScanHit(data, i) then Some(i)
    else HitIndex(data, i + 1)
  }

  /** The scan's month count: that of the first hit. */
  function KeyScanMonths(data: Entries, i: nat): (r: Option<nat>)
    requires i <= |data|
    ensures r.Some? ==> r.value > 0
  {
    match HitIndex(data, i)
    case Some(j) => MonthsFromTermAsWritten(data[j].1.s)
    case None => None
  }

  /** The month count used to derive the end date: `renewal_term` first, then
      the key scan. Only a non-zero count is ever used. */
  function TermMonths(data: Entries): (r: Option<nat>)
    ensures r.Some? ==> r.value > 0
  {
    var m := RenewalTermMonths(data);
    if NonZero(m) then m else KeyScanMonths(data, 0)
  }

  /** The end date after derivation: derived only when the raw end date is
      None and the start date is set and a month count is found. A year past
      9999 raises ValueError out of the fallback. */
  function DerivedEnd(start: Option<Date>, end: Option<Date>, months: Option<nat>): (r: Result<Option<Date>, PyError>)
    requires start.Some? ==> ValidDate(start.value)
  {
    if end.None? && start.Some? && NonZero(months) then
      match AddMonths(start.value, months.value)
      case None => Err(ValueError)
      case Some(d) => Ok(Some(d))
    else Ok(end)
  }

  // ---------------------------------------------------------- notice period

  /** `\((\d+)\)` matches at k. */
  predicate ParenAt(t: string, k: nat) {
    k + 1 < |t| && t[k] == '(' && IsDigit(t[k + 1]) &&
    DigitRunEnd(t, k + 1) < |t| && t[DigitRunEnd(t, k + 1)] == ')'
  }

  /** Where the search for a parenthesised number, from q on, matches. */
  function ParenIndex(t: string, q: nat): (r: Option<nat>)
    requires q <= |t|
    ensures r.Some? ==> q <= r.value < |t| && ParenAt(t, r.value)
    ensures r.Some? ==> forall k :: q <= k < r.value ==> !ParenAt(t, k)
    ensures r.None? ==> forall k :: q <= k < |t| ==> !ParenAt(t, k)
    decreases |t| - q
  {
    if q == |t| then None
    else if ParenAt(t, q) then Some(q)
    else ParenIndex(t, q + 1)
  }

  /** The first parenthesised number from q on. */
  function ParenNumber(t: string, q: nat): Option<nat>
    requires q <= |t|
  {
    match ParenIndex(t, q)
    case Some(k) => Some(RunValue(t, k + 1))
    case None => None
  }

  /** Where the first digit from q on stands. */
  function DigitIndex(t: string, q: nat): (r: Option<nat>)
    requires q <= |t|
    ensures r.Some? ==> q <= r.value < |t| && IsDigit(t[r.value])
    ensures r.Some? ==> forall k :: q <= k < r.value ==> !IsDigit(t[k])
    ensures r.None? ==> forall k :: q <= k < |t| ==> !IsDigit(t[k])
    decreases |t| - q
  {
    if q == |t| then None
    else if IsDigit(t[q]) then Some(q)
    else DigitIndex(t, q + 1)
  }

  /** The first run of digits from q on (`(\d+)`). */
  function FirstNumber(t: string, q: nat): Option<nat>
    requires q <= |t|
  {
    match DigitIndex(t, q)
    case Some(k) => Some(RunValue(t, k))
    case None => None
  }

  /** The notice period: `int()` of a truthy raw value; failing that, the
      number in parentheses in its text; failing that, the first number. */
  function NoticeDays(data: Entries): Option<int> {
    match TruthyField(data, "notice_period_days")
    case None => None
    case Some(v) =>
      match PyInt(v)
      case Some(n) => Some(n)
      case None => NumberInText(PyStr(v))
  }

  /** The number a notice period's text gives: the one in parentheses,
      failing that the first one. */
  function NumberInText(t: string): Option<int> {
    match ParenNumber(t, 0)
    case Some(n) => Some(n)
    case None => match FirstNumber(t, 0)
                 case Some(n) => Some(n)
                 case None => None
  }

  lemma NumberInTextRules(t: string)
    ensures ParenIndex(t, 0).Some? ==> NumberInText(t) == Some(RunValue(t, ParenIndex(t, 0).value + 1) as int)
    ensures ParenIndex(t, 0).None? && DigitIndex(t, 0).Some? ==>
      NumberInText(t) == Some(RunValue(t, DigitIndex(t, 0).value) as int)
    ensures ParenIndex(t, 0).None? && DigitIndex(t, 0).None? ==> NumberInText(t).None?
    ensures NumberInText(t).Some? ==> NumberInText(t).value >= 0
  {
  }

  // -------------------------------------------------------------- free text

  /** A free-text field: `str(value).strip()` when truthy. */
  function TextField(data: Entries, field: string): Option<string> {
    match TruthyField(data, field)
    case None => None
    case Some(v) => Some(Strip(PyStr(v)))
  }

  // ------------------------------------------------------------ whole record

  function Normalize(data: Entries): Result<Normalized, PyError> {
    var start := ParsedDate(data, "start_date");
    match DerivedEnd(start, ParsedDate(data, "end_date"), TermMonths(data))
    case Err(e) => Err(e)
    case Ok(end) =>
      Ok(Normalized(start, end, ParsedDate(data, "renewal_date"), ParsedDate(data, "notice_deadline"),
                    NoticeDays(data), TextField(data, "renewal_term"), TextField(data, "vendor_name")))
  }

  // ------------------------------------------------------------ properties

  /** Every date of a normalized record is a calendar date. */
  predicate DatesValid(n: Normalized) {
    && (n.startDate.Some? ==> ValidDate(n.startDate.value))
    && (n.endDate.Some? ==> ValidDate(n.endDate.value))
    && (n.renewalDate.Some? ==> ValidDate(n.renewalDate.value))
    && (n.noticeDeadline.Some? ==> ValidDate(n.noticeDeadline.value))
  }

  lemma NormalizedDatesValid(data: Entries)
    ensures Normalize(data).Ok? ==> DatesValid(Normalize(data).value)
  {
    var start := ParsedDate(data, "start_date");
    var months := TermMonths(data);
    if ParsedDate(data, "end_date").None? && start.Some? && NonZero(months) {
      AddMonthsProperties(start.value, months.value);
    }
  }

  /** `renewal_term` takes precedence; the key scan is consulted only when it
      gives no true count, and then the first qualifying entry decides. */
  lemma TermMonthsPrecedence(data: Entries)
    ensures NonZero(RenewalTermMonths(data)) ==> TermMonths(data) == RenewalTermMonths(data)
    ensures !NonZero(RenewalTermMonths(data)) ==>
      (TermMonths(data).None? <==> forall j :: 0 <= j < |data| ==> !ScanHit(data, j))
    ensures !NonZero(RenewalTermMonths(data)) && TermMonths(data).Some? ==>
      && HitIndex(data, 0).Some?
      && var j := HitIndex(data, 0).value;
         && ScanHit(data, j)
         && TermMonths(data) == MonthsFromTermAsWritten(data[j].1.s)
         && forall k :: 0 <= k < j ==> !ScanHit(data, k)
  {
    if !NonZero(RenewalTermMonths(data)) && HitIndex(data, 0).None? {
      assert TermMonths(data).None?;
    }
  }

  /** How the end date comes out. A raw end date, or a missing start date,
      leaves it as parsed. Otherwise a month count gives the start advanced by
      that many months with the day clamped: never before the start, strictly
      after it, and with a day no later than the start's. The only failure is
      a derived year past 9999. No month count leaves it None. */
  lemma EndDateRules(data: Entries)
    ensures var start := ParsedDate(data, "start_date");
            var raw := ParsedDate(data, "end_date");
      && (raw.Some? || start.None? ==> Normalize(data).Ok? && Normalize(data).value.endDate == raw)
      && (raw.None? && start.Some? && TermMonths(data).None? ==>
            Normalize(data).Ok? && Normalize(data).value.endDate.None?)
      && (raw.None? && start.Some? && TermMonths(data).Some? ==>
            var m := TermMonths(data).value;
            && (Normalize(data).Err? <==> AddMonths(start.value, m).None?)
            && (Normalize(data).Ok? ==>
                  var end := Normalize(data).value.endDate;
                  && end == AddMonths(start.value, m)
                  && end.value.year * 12 + end.value.month == start.value.year * 12 + start.value.month + m
                  && Before(start.value, end.value)
                  && end.value.day <= start.value.day))
      && (Normalize(data).Err? ==> Normalize(data).error == ValueError && raw.None? && start.Some? && TermMonths(data).Some?)
  {
    var start := ParsedDate(data, "start_date");
    if start.Some? && TermMonths(data).Some? {
      AddMonthsProperties(start.value, TermMonths(data).value);
    }
  }

  /** Every field other than the end date is independent of the derivation:
      whenever normalisation succeeds, they are exactly the per-field rules. */
  lemma OtherFieldsIndependent(data: Entries)
    requires Normalize(data).Ok?
    ensures var n := Normalize(data).value;
      && n.startDate == ParsedDate(data, "start_date")
      && n.renewalDate == ParsedDate(data, "renewal_date")
      && n.noticeDeadline == ParsedDate(data, "notice_deadline")
      && n.noticePeriodDays == NoticeDays(data)
      && n.renewalTerm == TextField(data, "renewal_term")
      && n.vendorName == TextField(data, "vendor_name")
  {
  }

  /** The notice period rules: falsy gives None; an `int()`-coercible value
      passes through unchanged, with no range check; otherwise the first
      parenthesised number, then the first number, else None. */
  lemma NoticeRules(data: Entries)
    ensures TruthyField(data, "notice_period_days").None? ==> NoticeDays(data).None?
    ensures var raw := TruthyField(data, "notice_period_days");
      raw.Some? && PyInt(raw.value).Some? ==> NoticeDays(data) == PyInt(raw.value)
    ensures var raw := TruthyField(data, "notice_period_days");
      raw.Some? && PyInt(raw.value).None? ==>
        var t := PyStr(raw.value);
        && (ParenIndex(t, 0).Some? ==>
              NoticeDays(data) == Some(RunValue(t, ParenIndex(t, 0).value + 1) as int))
        && (ParenIndex(t, 0).None? && DigitIndex(t, 0).Some? ==>
              NoticeDays(data) == Some(RunValue(t, DigitIndex(t, 0).value) as int))
        && (ParenIndex(t, 0).None? && DigitIndex(t, 0).None? ==> NoticeDays(data).None?)
        && (NoticeDays(data).Some? ==> NoticeDays(data).value >= 0)
  {
    var raw := TruthyField(data, "notice_period_days");
    if raw.Some? && PyInt(raw.value).None? {
      NumberInTextRules(PyStr(raw.value));
    }
  }

  /** A stored integer, including a negative one, is kept as it is; zero is
      falsy and gives None. */
  lemma NoticeOfInt(data: Entries, n: int)
    requires Lookup(data, "notice_period_days") == Some(JInt(n))
    ensures NoticeDays(data) == (if n == 0 then None else Some(n))
  {
  }

  /** The decimal text of a non-zero integer is read back as that integer. */
  lemma NoticeOfRenderedInt(data: Entries, n: int)
    requires n != 0 && Lookup(data, "notice_period_days") == Some(JString(IntToString(n)))
    ensures NoticeDays(data) == Some(n)
  {
    ParseIntOfRendering(n);
  }

  const SixtyDays: string := "sixty (60) days"

  /** "sixty (60) days" gives 60, from the parenthesised number. */
  lemma NoticeOfSixtyDays(data: Entries)
    requires Lookup(data, "notice_period_days") == Some(JString(SixtyDays))
    ensures NoticeDays(data) == Some(60)
  {
    var v := JString(SixtyDays);
    assert Truthy(v);
    assert TruthyField(data, "notice_period_days") == Some(v);
    SixtyDaysIsNotInt();
    assert PyInt(v) == None && PyStr(v) == SixtyDays;
    SixtyDaysParen();
  }

  lemma SixtyDaysIsNotInt()
    ensures ParseInt(SixtyDays) == None
  {
    var t := SixtyDays;
    assert LeadingSpaces(t) == 0;
    assert TrailingSpaces(t) == 0;
    assert Strip(t) == t[0..|t|];
    assert t[0..|t|] == t;
  }

  lemma SixtyDaysParen()
    ensures ParenNumber(SixtyDays, 0) == Some(60)
  {
    var t := SixtyDays;
    assert CharAbsent(t, '(', 0, 6);
    ParenSkip(t, 0, 6);
    assert DigitRunEnd(t, 9) == 9;
    assert DigitRunEnd(t, 7) == 9;
    assert ParenAt(t, 6);
    assert ParenIndex(t, 0) == Some(6);
    assert t[7..9] == "60";
    assert "60"[..1] == "6" && "6"[..0] == "";
    assert DecimalValue("60") == 60;
  }

  /** The scan for a parenthesised number passes over a stretch without
      an opening parenthesis. */
  lemma {:induction false} ParenSkip(t: string, q: nat, p: nat)
    requires q <= p <= |t| && CharAbsent(t, '(', q, p)
    ensures ParenIndex(t, q) == ParenIndex(t, p)
    decreases p - q
  {
    if q < p {
      ParenSkip(t, q + 1, p);
    }
  }

  /** A truthy free-text value is stringified and stripped, so the result
      has no surrounding whitespace; a whitespace-only value becomes "", not
      None; a falsy value gives None. */
  lemma TextFieldRules(data: Entries, field: string)
    ensures TextField(data, field).Some? <==> TruthyField(data, field).Some?
    ensures TextField(data, field).Some? ==> Strip(TextField(data, field).value) == TextField(data, field).value
    ensures forall s :: Lookup(data, field) == Some(JString(s)) && s != "" && IsBlank(s) ==> TextField(data, field) == Some("")
  {
    if TruthyField(data, field).Some? {
      StripIdempotent(PyStr(TruthyField(data, field).value));
    }
  }

  /** `validate_and_normalize_data(data)`: fills the normalised fields in
      place, in the source's order: dates, end date, notice period, texts. */
  method ValidateAndNormalize(data: Entries) returns (r: Result<Normalized, PyError>)
    ensures r == Normalize(data)
  {
    var dates := NormalizeDateFields(data);
    var start := dates["start_date"];
    var end := dates["end_date"];
    if end.None? && start.Some? {
      var months := FindTermMonths(data);
      if NonZero(months) {
        end := AddMonthsFallback(start.value, months.value);
        if end.None? {
          return Err(ValueError);
        }
      }
    }
    assert DerivedEnd(start, ParsedDate(data, "end_date"), TermMonths(data)) == Ok(end);
    var noticeDays := CoerceNoticeDays(data);
    var texts := TrimTextFields(data);
    r := Ok(Normalized(start, end, dates["renewal_date"], dates["notice_deadline"],
                       noticeDays, texts["renewal_term"], texts["vendor_name"]));
  }

  /** The loop over `date_fields`. */
  method NormalizeDateFields(data: Entries) returns (dates: map<string, Option<Date>>)
    ensures "start_date" in dates && dates["start_date"] == ParsedDate(data, "start_date")
    ensures "end_date" in dates && dates["end_date"] == ParsedDate(data, "end_date")
    ensures "renewal_date" in dates && dates["renewal_date"] == ParsedDate(data, "renewal_date")
    ensures "notice_deadline" in dates && dates["notice_deadline"] == ParsedDate(data, "notice_deadline")
  {
    dates := map[];
    for i := 0 to |DateFields|
      invariant forall j :: 0 <= j < i ==> DateFields[j] in dates && dates[DateFields[j]] == ParsedDate(data, DateFields[j])
    {
      var field := DateFields[i];
      var raw := Lookup(data, field);
      if raw.Some? && Truthy(raw.value) {
        dates := dates[field := ParseIso(PyStr(raw.value))];
      } else {
        dates := dates[field := None];
      }
    }
    assert DateFields[0] == "start_date" && DateFields[1] == "end_date";
    assert DateFields[2] == "renewal_date" && DateFields[3] == "notice_deadline";
  }

  /** The month count for the end date: `renewal_term` read as a term, and if
      that gives nothing true, the scan over the other keys, which stops at
      the first true count. */
  method FindTermMonths(data: Entries) returns (months: Option<nat>)
    ensures NonZero(months) <==> TermMonths(data).Some?
    ensures NonZero(months) ==> months == TermMonths(data)
  {
    months := None;
    var renewalTerm := Lookup(data, "renewal_term");
    if renewalTerm.Some? && renewalTerm.value.JString? && renewalTerm.value.s != "" {
      months := MonthsFromTermAsWritten(renewalTerm.value.s);
    }
    if NonZero(months) {
      return;
    }
    var i := 0;
    while i < |data|
      invariant 0 <= i <= |data|
      invariant !NonZero(months)
      invariant KeyScanMonths(data, i) == KeyScanMonths(data, 0)
    {
      var (key, value) := data[i];
      if value.JString? && NamesTerm(key) {
        months := MonthsFromTermAsWritten(value.s);
        if NonZero(months) {
          return;
        }
      }
      i := i + 1;
    }
  }

  /** The `notice_period_days` coercion. */
  method CoerceNoticeDays(data: Entries) returns (days: Option<int>)
    ensures days == NoticeDays(data)
  {
    var raw := Lookup(data, "notice_period_days");
    if raw.Some? && Truthy(raw.value) {
      var asInt := PyInt(raw.value);
      if asInt.Some? {
        days := asInt;
      } else {
        var text := PyStr(raw.value);
        var paren := ParenNumber(text, 0);
        if paren.Some? {
          days := Some(paren.value);
        } else {
          var first := FirstNumber(text, 0);
          days := if first.Some? then Some(first.value) else None;
        }
      }
    } else {
      days := None;
    }
  }

  /** The loop over `string_fields`. */
  method TrimTextFields(data: Entries) returns (texts: map<string, Option<string>>)
    ensures "renewal_term" in texts && texts["renewal_term"] == TextField(data, "renewal_term")
    ensures "vendor_name" in texts && texts["vendor_name"] == TextField(data, "vendor_name")
  {
    texts := map[];
    for i := 0 to |StringFields|
      invariant forall j :: 0 <= j < i ==> StringFields[j] in texts && texts[StringFields[j]] == TextField(data, StringFields[j])
    {
      var field := StringFields[i];
      var raw := Lookup(data, field);
      if raw.Some? && Truthy(raw.value) {
        texts := texts[field := Some(Strip(PyStr(raw.value)))];
      } else {
        texts := texts[field := None];
      }
    }
    assert StringFields[0] == "renewal_term" && StringFields[1] == "vendor_name";
  }
}
