/** `extract_contract_data` after the model's reply is decoded: the normalised
    fields plus the review metadata (uncertain fields, candidate dates, notes,
    the needs-review flag). The HTTP call and `json.loads` are an input: the
    decoded reply, or a failure. Every failure, raised or returned, gives
    the empty dict, modelled as None. */
module Extraction {
  import opened Wrappers
  import opened Text
  import opened Dates
  import opened JsonValues
  import opened Normalizer

  /** The date fields review metadata may name. */
  const AllowedFields: set<string> := {"start_date", "end_date", "renewal_date"}

  /** What the inference call gives: no usable reply (missing key, HTTP error,
      network error, undecodable JSON), or the decoded JSON value. */
  datatype InferenceOutcome = Unavailable | Returned(reply: Json)

  /** The dict `extract_contract_data` returns when it does not fail. */
  datatype Extracted = Extracted(
    fields: Normalized,
    uncertainFields: seq<string>,
    candidateDates: seq<(string, seq<string>)>,
    notes: Option<Json>,
    needsReview: bool)

  // ------------------------------------------------------ candidate dates

  /** The ISO form of one candidate, when `str(s)` parses as a date. */
  function CandidateIso(s: Json): Option<string> {
    match ParseIso(PyStr(s))
    case Some(d) => Some(FormatIso(d))
    case None => None
  }

  /** The candidates of one list that parse, re-emitted as ISO, in order. */
  function IsoCandidates(items: seq<Json>): (r: seq<string>)
    ensures |r| <= |items|
  {
    if items == [] then []
    else
      var init := IsoCandidates(items[..|items| - 1]);
      match CandidateIso(items[|items| - 1])
      case Some(iso) => init + [iso]
      case None => init
  }

  /** `out[:3]`. */
  function Take3(xs: seq<string>): (r: seq<string>)
    ensures |r| <= 3 && r <= xs
    ensures |xs| <= 3 ==> r == xs
  {
    if |xs| <= 3 then xs else xs[..3]
  }

  /** The entry a candidate field contributes, if it contributes one. */
  function CleanedEntry(k: string, v: Json): Option<(string, seq<string>)> {
    if k in AllowedFields && v.JArray? && IsoCandidates(v.items) != [] then
      Some((k, Take3(IsoCandidates(v.items))))
    else None
  }

  /** `cleaned_candidates` after the loop over the entries. */
  function CleanedFrom(entries: Entries): seq<(string, seq<string>)> {
    if entries == [] then []
    else
      var init := CleanedFrom(entries[..|entries| - 1]);
      var (k, v) := entries[|entries| - 1];
      match CleanedEntry(k, v)
      case Some(e) => init + [e]
      case None => init
  }

  /** The cleaned candidates of `candidate_dates`: a falsy value counts as
      `{}`; a truthy value that is not an object has no `.items()` and raises
      AttributeError. */
  function Candidates(raw: Option<Json>): Option<seq<(string, seq<string>)>> {
    match raw
    case None => Some([])
    case Some(JObject(entries)) => Some(CleanedFrom(entries))
    case Some(_) => None
  }

  /** The two nested loops over `candidate_dates` and each candidate list. */
  method CleanCandidates(raw: Option<Json>) returns (r: Option<seq<(string, seq<string>)>>)
    ensures r == Candidates(raw)
  {
    if raw.None? {
      return Some([]);
    }
    if !raw.value.JObject? {
      return None;
    }
    var entries := raw.value.entries;
    var cleaned: seq<(string, seq<string>)> := [];
    for i := 0 to |entries|
      invariant cleaned == CleanedFrom(entries[..i])
    {
      var (k, v) := entries[i];
      CleanedFromStep(entries, i);
      if k in AllowedFields && v.JArray? {
        var out := CleanList(v.items);
        if out != [] {
          cleaned := cleaned + [(k, Take3(out))];
        }
      }
    }
    assert entries[..|entries|] == entries;
    return Some(cleaned);
  }

  /** The inner loop over one candidate list. */
  method CleanList(items: seq<Json>) returns (out: seq<string>)
    ensures out == IsoCandidates(items)
  {
    out := [];
    for j := 0 to |items|
      invariant out == IsoCandidates(items[..j])
    {
      var parsed := ParseIso(PyStr(items[j]));
      if parsed.Some? {
        out := out + [FormatIso(parsed.value)];
      }
      assert items[..j + 1][..j] == items[..j];
    }
    assert items[..|items|] == items;
  }

  lemma CleanedFromStep(entries: Entries, i: nat)
    requires i < |entries|
    ensures CleanedFrom(entries[..i + 1]) == CleanedFrom(entries[..i])
      + (match CleanedEntry(entries[i].0, entries[i].1) case Some(e) => [e] case None => [])
  {
    assert entries[..i + 1][..i] == entries[..i];
  }

  /** A candidate string that is the canonical text of a valid date. */
  predicate CanonicalIso(s: string) {
    ParseIso(s).Some? && FormatIso(ParseIso(s).value) == s
  }

  /** Every kept candidate is canonical ISO text; candidates are kept in
      order, so the cleaning of two lists in a row is the two cleanings in a
      row. */
  lemma {:induction false} IsoCandidatesProperties(items: seq<Json>, more: seq<Json>)
    ensures forall k :: 0 <= k < |IsoCandidates(items)| ==> CanonicalIso(IsoCandidates(items)[k])
    ensures IsoCandidates(items + more) == IsoCandidates(items) + IsoCandidates(more)
    decreases |more|
  {
    IsoCandidatesCanonical(items);
    if more != [] {
      var last := more[|more| - 1];
      var init := more[..|more| - 1];
      IsoCandidatesProperties(items, init);
      assert (items + more)[..|items + more| - 1] == items + init;
    } else {
      assert items + more == items;
    }
  }

  lemma {:induction false} IsoCandidatesCanonical(items: seq<Json>)
    ensures forall k :: 0 <= k < |IsoCandidates(items)| ==> CanonicalIso(IsoCandidates(items)[k])
  {
    if items != [] {
      IsoCandidatesCanonical(items[..|items| - 1]);
      var d := ParseIso(PyStr(items[|items| - 1]));
      if d.Some? {
        IsoRoundTrip(d.value);
      }
    }
  }

  /** Candidates already in canonical form are kept exactly as given. */
  lemma {:induction false} IsoCandidatesOfCanonical(items: seq<Json>)
    requires forall k :: 0 <= k < |items| ==> items[k].JString? && CanonicalIso(items[k].s)
    ensures |IsoCandidates(items)| == |items|
    ensures forall k :: 0 <= k < |items| ==> IsoCandidates(items)[k] == items[k].s
  {
    if items != [] {
      var init := items[..|items| - 1];
      var last := items[|items| - 1];
      IsoCandidatesOfCanonical(init);
      assert CandidateIso(last) == Some(last.s);
      assert IsoCandidates(items) == IsoCandidates(init) + [last.s];
    }
  }

  /** What one kept entry holds: an allowed key and the first one to three
      parseable candidates of its list, as canonical ISO text. */
  predicate KeptFrom(e: (string, seq<string>), k: string, v: Json) {
    && e.0 == k
    && k in AllowedFields
    && v.JArray?
    && e.1 == Take3(IsoCandidates(v.items))
    && 1 <= |e.1| <= 3
    && forall n :: 0 <= n < |e.1| ==> CanonicalIso(e.1[n])
  }

  /** Every cleaned entry comes from an input entry under an allowed key
      holding a list, as `KeptFrom` describes. */
  lemma {:induction false} CleanedSound(entries: Entries)
    ensures forall e :: e in CleanedFrom(entries) ==>
      exists i :: 0 <= i < |entries| && KeptFrom(e, entries[i].0, entries[i].1)
  {
    if entries != [] {
      var init := entries[..|entries| - 1];
      CleanedSound(init);
      var (k, v) := entries[|entries| - 1];
      forall e | e in CleanedFrom(entries)
        ensures exists i :: 0 <= i < |entries| && KeptFrom(e, entries[i].0, entries[i].1)
      {
        if e in CleanedFrom(init) {
          var i :| 0 <= i < |init| && KeptFrom(e, init[i].0, init[i].1);
          assert entries[i] == init[i];
        } else {
          assert CleanedEntry(k, v) == Some(e);
          IsoCandidatesCanonical(v.items);
          assert KeptFrom(e, k, v);
        }
      }
    }
  }

  /** Every input entry under an allowed key whose list has a parseable
      candidate is kept. */
  lemma {:induction false} CleanedComplete(entries: Entries, i: nat)
    requires i < |entries| && CleanedEntry(entries[i].0, entries[i].1).Some?
    ensures CleanedEntry(entries[i].0, entries[i].1).value in CleanedFrom(entries)
  {
    var init := entries[..|entries| - 1];
    if i < |init| {
      CleanedComplete(init, i);
      assert entries[i] == init[i];
    }
  }

  // ----------------------------------------------------- uncertain fields

  function FilterAllowed(xs: seq<string>): (r: seq<string>)
    ensures forall x :: x in r <==> x in xs && x in AllowedFields
  {
    if xs == [] then []
    else
      var init := FilterAllowed(xs[..|xs| - 1]);
      var x := xs[|xs| - 1];
      assert forall y :: y in xs <==> y in xs[..|xs| - 1] || y == x by {
        assert xs == xs[..|xs| - 1] + [x];
      }
      if x in AllowedFields then init + [x] else init
  }

  /** The strings among a list's items; other hashable items are never in
      the allowed set. */
  function StringItems(items: seq<Json>): seq<string> {
    if items == [] then []
    else
      var init := StringItems(items[..|items| - 1]);
      match items[|items| - 1]
      case JString(s) => init + [s]
      case _ => init
  }

  /** A list or object item cannot be hashed, so `f in allowed_fields` raises. */
  predicate Unhashable(j: Json) {
    j.JArray? || j.JObject?
  }

  function Keys(entries: Entries): (r: seq<string>)
    ensures |r| == |entries|
    ensures forall i :: 0 <= i < |entries| ==> r[i] == entries[i].0
  {
    seq(|entries|, i requires 0 <= i < |entries| => entries[i].0)
  }

  /** `[f for f in (uncertain_fields or []) if f in allowed_fields]`:
      a list keeps its allowed string items, an object its allowed keys, a
      string iterates over one-character strings and keeps none; an
      unhashable item raises TypeError, and so does iterating a number or
      `True`. */
  function Uncertain(raw: Option<Json>): Option<seq<string>> {
    match raw
    case None => Some([])
    case Some(JArray(items)) =>
      if exists i :: 0 <= i < |items| && Unhashable(items[i]) then None
      else Some(FilterAllowed(StringItems(items)))
    case Some(JObject(entries)) => Some(FilterAllowed(Keys(entries)))
    case Some(JString(_)) => Some([])
    case Some(_) => None
  }

  /** The filter keeps its input's order: filtering two lists in a row is
      the two filterings in a row. */
  lemma {:induction false} FilterAllowedAppend(a: seq<string>, b: seq<string>)
    ensures FilterAllowed(a + b) == FilterAllowed(a) + FilterAllowed(b)
    decreases |b|
  {
    if b == [] {
      assert a + b == a;
    } else {
      FilterAllowedAppend(a, b[..|b| - 1]);
      assert (a + b)[..|a + b| - 1] == a + b[..|b| - 1];
    }
  }

  /** What survives of `uncertain_fields`: only allowed names, each one that
      the list or object names; a string keeps nothing. */
  lemma UncertainRules(raw: Option<Json>)
    ensures Uncertain(raw).Some? ==> forall f :: f in Uncertain(raw).value ==> f in AllowedFields
    ensures raw.Some? && raw.value.JObject? ==>
      forall f :: f in Uncertain(raw).value <==> f in AllowedFields && f in Keys(raw.value.entries)
    ensures raw.Some? && raw.value.JString? ==> Uncertain(raw) == Some([])
    ensures raw.Some? && (raw.value.JInt? || raw.value.JBool?) ==> Uncertain(raw).None?
  {
  }

  // ---------------------------------------------------------- the result

  function Extract(outcome: InferenceOutcome): Option<Extracted> {
    match outcome
    case Unavailable => None
    case Returned(JObject(data)) => ExtractFrom(data)
    case Returned(_) => None
  }

  /** When extraction succeeds, the review flag is set exactly when some
      uncertain field survives the filter, and the normalised fields are the
      normaliser's. It fails exactly when there is no usable reply, the reply
      is not an object, the derived end date overflows, or the metadata has a
      shape Python cannot iterate. */
  lemma ExtractRules(outcome: InferenceOutcome)
    ensures Extract(outcome).Some? ==>
      && (Extract(outcome).value.needsReview <==> Extract(outcome).value.uncertainFields != [])
      && (forall f :: f in Extract(outcome).value.uncertainFields ==> f in AllowedFields)
      && Normalize(outcome.reply.entries) == Ok(Extract(outcome).value.fields)
    ensures Extract(outcome).None? <==>
      || outcome.Unavailable?
      || !outcome.reply.JObject?
      || Normalize(outcome.reply.entries).Err?
      || Candidates(TruthyField(outcome.reply.entries, "candidate_dates")).None?
      || Uncertain(TruthyField(outcome.reply.entries, "uncertain_fields")).None?
  {
    if outcome.Returned? && outcome.reply.JObject? {
      var data := outcome.reply.entries;
      UncertainRules(TruthyField(data, "uncertain_fields"));
      assert Extract(outcome) == ExtractFrom(data);
    }
  }

  /** `Extract` on a decoded object. */
  function ExtractFrom(data: Entries): Option<Extracted> {
    match Normalize(data)
    case Err(_) => None
    case Ok(fields) =>
      match Candidates(TruthyField(data, "candidate_dates"))
      case None => None
      case Some(candidates) =>
        match Uncertain(TruthyField(data, "uncertain_fields"))
        case None => None
        case Some(uncertain) =>
          Some(Extracted(fields, uncertain, candidates, TruthyField(data, "extraction_notes"), uncertain != []))
  }

  /** The dates handed on to the record are calendar dates. */
  lemma ExtractedDatesValid(outcome: InferenceOutcome)
    ensures Extract(outcome).Some? ==> DatesValid(Extract(outcome).value.fields)
  {
    ExtractRules(outcome);
    if Extract(outcome).Some? {
      NormalizedDatesValid(outcome.reply.entries);
    }
  }

  /** `extract_contract_data(text)` from the point the reply is decoded. */
  method ExtractContractData(outcome: InferenceOutcome) returns (r: Option<Extracted>)
    ensures r == Extract(outcome)
  {
    if outcome.Unavailable? || !outcome.reply.JObject? {
      return None;
    }
    var data := outcome.reply.entries;
    var normalized := ValidateAndNormalize(data);
    if normalized.Err? {
      return None;
    }
    var candidates := CleanCandidates(TruthyField(data, "candidate_dates"));
    if candidates.None? {
      return None;
    }
    var uncertain := Uncertain(TruthyField(data, "uncertain_fields"));
    if uncertain.None? {
      return None;
    }
    var needsReview := uncertain.value != [];
    r := Some(Extracted(normalized.value, uncertain.value, candidates.value,
                        TruthyField(data, "extraction_notes"), needsReview));
  }
}
