/** The values `json.loads` produces, with the Python operations the backend
    applies to them: truthiness, `dict.get`, `str()` and `int()`. */
module JsonValues {
  import opened Wrappers
  import opened Text

  /** A decoded JSON value. Objects keep their keys in document order, as a
      Python dict does; `json.loads` leaves each key once. */
  datatype Json =
    | JNull
    | JBool(b: bool)
    | JInt(i: int)
    | JString(s: string)
    | JArray(items: seq<Json>)
    | JObject(entries: seq<(string, Json)>)

  /** The exceptions the modelled code can raise on unexpected values. */
  datatype PyError = ValueError | TypeError | AttributeError | OverflowError

  /** Python truthiness: `None`, `False`, `0`, `""`, `[]` and `{}` are false. */
  predicate Truthy(j: Json) {
    match j
    case JNull => false
    case JBool(b) => b
    case JInt(i) => i != 0
    case JString(s) => s != ""
    case JArray(items) => items != []
    case JObject(entries) => entries != []
  }

  /** `d.get(key)` on a dict's entries: the value stored under `key`, if any. */
  function Lookup(entries: seq<(string, Json)>, key: string): (r: Option<Json>)
    ensures r.None? <==> forall i :: 0 <= i < |entries| ==> entries[i].0 != key
    ensures r.Some? ==> (key, r.value) in entries
  {
    if entries == [] then None
    else if entries[0].0 == key then Some(entries[0].1)
    else
      var r := Lookup(entries[1..], key);
      assert r.Some? ==> (key, r.value) in entries[1..];
      r
  }

  /** `key in d and d[key]`: present and truthy. */
  function TruthyField(entries: seq<(string, Json)>, key: string): (r: Option<Json>)
    ensures r.Some? <==> Lookup(entries, key).Some? && Truthy(Lookup(entries, key).value)
    ensures r.Some? ==> r == Lookup(entries, key)
  {
    match Lookup(entries, key)
    case Some(v) => if Truthy(v) then Some(v) else None
    case None => None
  }

  /** `repr(j)`. String quoting is simplified: the quote character is always
      `'` and no character is escaped. */
  function Repr(j: Json): string {
    match j
    case JNull => "None"
    case JBool(b) => if b then "True" else "False"
    case JInt(i) => IntToString(i)
    case JString(s) => "'" + s + "'"
    case JArray(items) =>
      "[" + Join(", ", seq(|items|, k requires 0 <= k < |items| => Repr(items[k]))) + "]"
    case JObject(entries) =>
      "{" + Join(", ", seq(|entries|, k requires 0 <= k < |entries| =>
                          "'" + entries[k].0 + "': " + Repr(entries[k].1))) + "}"
  }

  /** `str(j)`: a string is itself, everything else its `repr`. */
  function PyStr(j: Json): string {
    match j
    case JString(s) => s
    case _ => Repr(j)
  }

  /** Digits in groups separated by single underscores, as `int()` accepts. */
  predicate DigitGroups(s: string) {
    && s != []
    && IsDigit(s[0])
    && IsDigit(s[|s| - 1])
    && forall i :: 0 <= i < |s| ==> IsDigit(s[i]) || (s[i] == '_' && i + 1 < |s| && IsDigit(s[i + 1]))
  }

  predicate DigitsOrUnderscores(s: string) {
    forall i :: 0 <= i < |s| ==> IsDigit(s[i]) || s[i] == '_'
  }

  lemma DigitGroupsChars(s: string)
    requires DigitGroups(s)
    ensures DigitsOrUnderscores(s)
  {
    forall i | 0 <= i < |s| ensures IsDigit(s[i]) || s[i] == '_' {
      assert IsDigit(s[i]) || (s[i] == '_' && i + 1 < |s| && IsDigit(s[i + 1]));
    }
  }

  function WithoutUnderscores(s: string): (r: string)
    requires DigitsOrUnderscores(s)
    ensures AllDigits(r)
  {
    if s == [] then []
    else if s[0] == '_' then WithoutUnderscores(s[1..])
    else [s[0]] + WithoutUnderscores(s[1..])
  }

  lemma WithoutUnderscoresOfDigits(s: string)
    requires AllDigits(s)
    ensures WithoutUnderscores(s) == s
  {
  }

  /** `int(s)` for a string in base 10: surrounding whitespace, an optional
      sign, then digit groups; None where Python raises ValueError. */
  function ParseInt(s: string): (r: Option<int>)
  {
    var t := Strip(s);
    if t != [] && (t[0] == '+' || t[0] == '-') then
      var body := t[1..];
      if DigitGroups(body) then
        DigitGroupsChars(body);
        var n: int := DecimalValue(WithoutUnderscores(body));
        Some(if t[0] == '-' then -n else n)
      else None
    else if DigitGroups(t) then
      DigitGroupsChars(t);
      Some(DecimalValue(WithoutUnderscores(t)))
    else None
  }

  lemma StripOfNoSpace(s: string)
    requires s != [] && forall i :: 0 <= i < |s| ==> !IsSpace(s[i])
    ensures Strip(s) == s
  {
    assert LeadingSpaces(s) == 0;
    assert s[0..] == s;
    assert TrailingSpaces(s) == 0;
  }

  /** `int(str(n)) == n`: every rendering of an integer is read back. */
  lemma ParseIntOfRendering(n: int)
    ensures ParseInt(IntToString(n)) == Some(n)
  {
    var r := IntToString(n);
    StripOfNoSpace(r);
    NatToStringRoundTrip(if n < 0 then -n else n);
    if n < 0 {
      assert r[1..] == NatToString(-n);
      WithoutUnderscoresOfDigits(r[1..]);
    } else {
      WithoutUnderscoresOfDigits(r);
    }
  }

  /** `int(j)`: None where Python raises ValueError or TypeError. */
  function PyInt(j: Json): Option<int> {
    match j
    case JBool(b) => Some(if b then 1 else 0)
    case JInt(i) => Some(i)
    case JString(s) => ParseInt(s)
    case _ => None
  }
}
