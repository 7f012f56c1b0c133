/** The request handlers' own logic: the display name rule, the error
    envelope of `http_exception_handler`, the status machine of
    `_process_single_file` and the partial update of `update_contract`. */
module Api {
  import opened Wrappers
  import opened Text
  import opened Dates
  import opened JsonValues
  import opened PageMerge
  import opened Normalizer
  import opened Extraction
  import opened Contracts

  // --------------------------------------------------------- display name

  /** The index of the last occurrence of `ch` in `s`. */
  function LastIndexOf(s: string, ch: char): (r: Option<nat>)
    ensures r.None? <==> ch !in s
    ensures r.Some? ==> r.value < |s| && s[r.value] == ch && ch !in s[r.value + 1..]
  {
    if s == [] then None
    else if s[|s| - 1] == ch then Some(|s| - 1)
    else
      var r := LastIndexOf(s[..|s| - 1], ch);
      assert s == s[..|s| - 1] + [s[|s| - 1]];
      if r.Some? then
        assert s[r.value + 1..] == s[..|s| - 1][r.value + 1..] + [s[|s| - 1]];
        r
      else r
  }

  /** `name.rsplit('.', 1)[0]`: the text before the last '.'. */
  function StemOf(name: string): string {
    match LastIndexOf(name, '.')
    case None => name
    case Some(i) => name[..i]
  }

  /** `generate_smart_display_name(vendor_name, original_filename)`. */
  function SmartDisplayName(vendorName: Option<string>, fileName: string): string {
    if vendorName.Some? && vendorName.value != "" then Strip(vendorName.value) else StemOf(fileName)
  }

  /** A vendor name wins, trimmed. Otherwise the file name is kept whole when
      it has no '.', and else loses exactly its last extension: the result,
      a '.', and a suffix without '.' spell the file name. */
  lemma DisplayNameRules(vendorName: Option<string>, fileName: string)
    ensures vendorName.Some? && vendorName.value != "" ==>
      SmartDisplayName(vendorName, fileName) == Strip(vendorName.value)
    ensures !(vendorName.Some? && vendorName.value != "") && '.' !in fileName ==>
      SmartDisplayName(vendorName, fileName) == fileName
    ensures !(vendorName.Some? && vendorName.value != "") && '.' in fileName ==>
      var r := SmartDisplayName(vendorName, fileName);
      exists suffix :: fileName == r + "." + suffix && '.' !in suffix
  {
    if !(vendorName.Some? && vendorName.value != "") && '.' in fileName {
      var i := LastIndexOf(fileName, '.').value;
      var suffix := fileName[i + 1..];
      assert fileName == fileName[..i] + "." + suffix;
    }
  }

  /** A record named `Acme-MSA.2024.pdf` with no vendor is shown as
      `Acme-MSA.2024`. */
  lemma DisplayNameExample()
    ensures SmartDisplayName(None, "Acme-MSA.2024.pdf") == "Acme-MSA.2024"
  {
    var f := "Acme-MSA.2024.pdf";
    assert f[13] == '.' && '.' !in f[14..];
    assert LastIndexOf(f, '.') == Some(13);
  }

  // ------------------------------------------------------- error envelope

  datatype HttpResponse = HttpResponse(status: int, body: Json)

  /** The `code` of the error envelope for an HTTP status. */
  function ErrorCode(status: int): string {
    if status == 404 then "not_found"
    else if status == 400 then "bad_request"
    else if status == 401 then "unauthorized"
    else if status == 403 then "forbidden"
    else "http_error"
  }

  /** The status a specific code stands for; the catch-all code stands for
      none. */
  function StatusOfCode(code: string): Option<int> {
    if code == "not_found" then Some(404)
    else if code == "bad_request" then Some(400)
    else if code == "unauthorized" then Some(401)
    else if code == "forbidden" then Some(403)
    else None
  }

  /** The four mapped statuses get distinct codes that read back as the
      status; every other status shares `http_error`. */
  lemma ErrorCodeRoundTrip(status: int)
    ensures status in {400, 401, 403, 404} <==> StatusOfCode(ErrorCode(status)) == Some(status)
    ensures status !in {400, 401, 403, 404} <==> ErrorCode(status) == "http_error"
  {
  }

  function ErrorBody(code: string, message: string): Json {
    JObject([("error", JObject([("code", JString(code)), ("message", JString(message))]))])
  }

  /** `http_exception_handler`: the status passes through; the body is
      `{"error": {"code": ..., "message": detail}}`. */
  function HttpErrorResponse(status: int, detail: string): HttpResponse {
    HttpResponse(status, ErrorBody(ErrorCode(status), detail))
  }

  /** `generic_exception_handler`: any other exception. */
  const InternalError: HttpResponse := HttpResponse(500, ErrorBody("internal", "Internal server error"))

  /** A client reads the status, the code and the message back out of the
      envelope. */
  lemma ErrorResponseReadsBack(status: int, detail: string)
    ensures var r := HttpErrorResponse(status, detail);
      && r.status == status
      && Lookup(r.body.entries, "error").Some?
      && Lookup(r.body.entries, "error").value.JObject?
      && var e := Lookup(r.body.entries, "error").value.entries;
         Lookup(e, "code") == Some(JString(ErrorCode(status))) && Lookup(e, "message") == Some(JString(detail))
  {
  }

  // ----------------------------------------------------------- record row

  /** The columns a handler assigns. */
  datatype Row = Row(
    displayName: Option<string>,
    vendorName: Option<string>,
    startDate: Option<Date>,
    endDate: Option<Date>,
    renewalDate: Option<Date>,
    renewalTerm: Option<string>,
    noticePeriodDays: Option<int>,
    noticeDeadline: Option<Date>,
    needsReview: Option<bool>,
    extractionNotes: Option<Json>,
    uncertainFields: Option<seq<string>>,
    candidateDates: Option<seq<(string, seq<string>)>>)

  function RowOf(c: Contract): Row
    reads c
  {
    Row(c.displayName, c.vendorName, c.startDate, c.endDate, c.renewalDate, c.renewalTerm,
        c.noticePeriodDays, c.noticeDeadline, c.needsReview, c.extractionNotes, c.uncertainFields,
        c.candidateDates)
  }

  const EmptyRow: Row := Row(None, None, None, None, None, None, None, None, None, None, None, None)

  predicate RowValid(r: Row) {
    && (r.startDate.Some? ==> ValidDate(r.startDate.value))
    && (r.endDate.Some? ==> ValidDate(r.endDate.value))
    && (r.renewalDate.Some? ==> ValidDate(r.renewalDate.value))
    && (r.noticeDeadline.Some? ==> ValidDate(r.noticeDeadline.value))
  }

  // --------------------------------------------------------------- upload

  /** The per-file item of the upload response. */
  datatype UploadItem = UploadItem(id: Option<int>, fileName: string, status: Status)

  /** Where `_process_single_file` stops. */
  datatype Stage = NoText | NoData | DeadlineOverflow(data: Extracted) | Stored(data: Extracted)

  function UploadStage(doc: DocumentScan, outcome: InferenceOutcome): Stage {
    if IsBlank(MergedText(doc)) then NoText
    else
      match Extract(outcome)
      case None => NoData
      case Some(e) =>
        ExtractedDatesValid(outcome);
        if DeadlineFor(e.fields.renewalDate, e.fields.noticePeriodDays).Err? then DeadlineOverflow(e)
        else Stored(e)
  }

  /** What the success path copies onto the record, before the deadline. */
  function ExtractedRow(e: Extracted, fileName: string): Row {
    Row(Some(SmartDisplayName(e.fields.vendorName, fileName)), e.fields.vendorName,
        e.fields.startDate, e.fields.endDate, e.fields.renewalDate, e.fields.renewalTerm,
        e.fields.noticePeriodDays, None, Some(e.needsReview), e.notes, Some(e.uncertainFields),
        Some(e.candidateDates))
  }

  /** `0.7 if contract.needs_review else 1.0`. */
  function ConfidenceFor(needsReview: bool): Confidence {
    if needsReview then Reduced else Full
  }

  /** A file fails for lack of text exactly when the document is unreadable
      or every page comes out blank. It succeeds exactly when its text is not blank, extraction gives a
      result and the deadline stays in the calendar; it is then marked for
      review, with reduced confidence, exactly when some core date field
      was reported uncertain. */
  lemma UploadStageRules(doc: DocumentScan, outcome: InferenceOutcome)
    ensures UploadStage(doc, outcome).NoText? <==> MergedText(doc) == ""
    ensures UploadStage(doc, outcome).NoText? <==>
      doc.Unreadable? || forall i :: 0 <= i < |doc.pages| ==> IsBlank(PageText(doc.pages[i]))
    ensures UploadStage(doc, outcome).Stored? <==>
      && MergedText(doc) != ""
      && Extract(outcome).Some?
      && DatesValid(Extract(outcome).value.fields)
      && DeadlineFor(Extract(outcome).value.fields.renewalDate, Extract(outcome).value.fields.noticePeriodDays).Ok?
    ensures UploadStage(doc, outcome).Stored? ==>
      var e := UploadStage(doc, outcome).data;
      (ConfidenceFor(e.needsReview) == Reduced <==> e.uncertainFields != [])
  {
    MergedIsStripped(doc);
    MergedEmpty(doc);
    ExtractedDatesValid(outcome);
    ExtractRules(outcome);
  }

  /** `_process_single_file`: creates the pending record `id`, then marks it
      failed when the text is blank or extraction gives nothing (leaving the
      terms null), or copies the terms, derives the display name and the
      deadline and marks it success. An OverflowError from the deadline is
      caught: the record is failed with the copied terms. The text and the
      extraction outcome are inputs: the PDF scan and the reply of the
      language model. */
  method ProcessSingleFile(id: int, fileName: string, pdfPath: string, doc: DocumentScan, outcome: InferenceOutcome)
    returns (c: Contract, item: UploadItem)
    ensures fresh(c) && c.Valid()
    ensures c.id == id && c.fileName == fileName && c.pdfPath == pdfPath
    ensures item == UploadItem(Some(id), fileName, c.extractionStatus)
    ensures c.extractionStatus == (if UploadStage(doc, outcome).Stored? then Success else Failed)
    ensures UploadStage(doc, outcome).NoText? || UploadStage(doc, outcome).NoData? ==>
      RowOf(c) == EmptyRow && c.extractionConfidence.None?
    ensures UploadStage(doc, outcome).DeadlineOverflow? ==>
      RowOf(c) == ExtractedRow(UploadStage(doc, outcome).data, fileName) && c.extractionConfidence.None?
    ensures UploadStage(doc, outcome).Stored? ==>
      var e := UploadStage(doc, outcome).data;
      && RowOf(c) == ExtractedRow(e, fileName).(noticeDeadline := c.noticeDeadline)
      && c.DeadlineConsistent()
      && c.extractionConfidence == Some(ConfidenceFor(e.needsReview))
  {
    c := new Contract(id, fileName, pdfPath);
    var text := ExtractTextFromPdf(doc);
    if text == "" || Strip(text) == "" {
      c.extractionStatus := Failed;
      item := UploadItem(Some(c.id), fileName, Failed);
      return;
    }
    var extracted := ExtractContractData(outcome);
    if extracted.None? {
      c.extractionStatus := Failed;
      item := UploadItem(Some(c.id), fileName, Failed);
      return;
    }
    ExtractedDatesValid(outcome);
    var ok := FillRecord(c, extracted.value);
    item := UploadItem(Some(c.id), fileName, c.extractionStatus);
  }

  /** The success path on the pending record: copy the terms, derive the
      display name, compute the deadline (`ok` is false where it raises),
      then set the status and the confidence. */
  method FillRecord(c: Contract, e: Extracted) returns (ok: bool)
    requires DatesValid(e.fields) && c.Valid() && RowOf(c) == EmptyRow && c.extractionConfidence.None?
    modifies c
    ensures c.Valid()
    ensures c.id == old(c.id) && c.fileName == old(c.fileName) && c.pdfPath == old(c.pdfPath)
    ensures ok <==> DeadlineFor(e.fields.renewalDate, e.fields.noticePeriodDays).Ok?
    ensures c.extractionStatus == (if ok then Success else Failed)
    ensures !ok ==> RowOf(c) == ExtractedRow(e, c.fileName) && c.extractionConfidence.None?
    ensures ok ==>
      && RowOf(c) == ExtractedRow(e, c.fileName).(noticeDeadline := c.noticeDeadline)
      && c.DeadlineConsistent()
      && c.extractionConfidence == Some(ConfidenceFor(e.needsReview))
  {
    CopyExtracted(c, e);
    ghost var copied := RowOf(c);
    ok := c.ComputeNoticeDeadline();
    assert RowOf(c) == copied.(noticeDeadline := c.noticeDeadline);
    ghost var computed := RowOf(c);
    SetOutcome(c, ok);
    assert RowOf(c) == computed;
  }

  /** The field copies and the display name of the success path. */
  method CopyExtracted(c: Contract, e: Extracted)
    requires DatesValid(e.fields) && c.noticeDeadline.None?
    modifies c`displayName, c`vendorName, c`startDate, c`endDate, c`renewalDate, c`renewalTerm,
             c`noticePeriodDays, c`needsReview, c`extractionNotes, c`uncertainFields, c`candidateDates
    ensures c.Valid()
    ensures RowOf(c) == ExtractedRow(e, c.fileName)
  {
    c.vendorName := e.fields.vendorName;
    c.startDate := e.fields.startDate;
    c.endDate := e.fields.endDate;
    c.renewalDate := e.fields.renewalDate;
    c.renewalTerm := e.fields.renewalTerm;
    c.noticePeriodDays := e.fields.noticePeriodDays;
    c.needsReview := Some(e.needsReview);
    c.extractionNotes := e.notes;
    c.uncertainFields := Some(e.uncertainFields);
    c.candidateDates := Some(e.candidateDates);
    c.displayName := Some(SmartDisplayName(c.vendorName, c.fileName));
  }

  /** The status, and on success the confidence. */
  method SetOutcome(c: Contract, ok: bool)
    modifies c`extractionStatus, c`extractionConfidence
    ensures c.extractionStatus == (if ok then Success else Failed)
    ensures !ok ==> c.extractionConfidence == old(c.extractionConfidence)
    ensures ok ==> c.extractionConfidence == Some(ConfidenceFor(c.needsReview == Some(true)))
  {
    if !ok {
      c.extractionStatus := Failed;
      return;
    }
    c.extractionStatus := Success;
    c.extractionConfidence := Some(if c.needsReview == Some(true) then Reduced else Full);
  }

  // --------------------------------------------------------------- update

  /** One entry of `contract_update.model_dump(exclude_unset=True)`: a field
      the request sets, with its value, which may be null. */
  datatype FieldUpdate =
    | SetDisplayName(displayName: Option<string>)
    | SetVendorName(vendorName: Option<string>)
    | SetStartDate(startDate: Option<Date>)
    | SetEndDate(endDate: Option<Date>)
    | SetRenewalDate(renewalDate: Option<Date>)
    | SetRenewalTerm(renewalTerm: Option<string>)
    | SetNoticePeriodDays(noticePeriodDays: Option<int>)
    | SetNeedsReview(needsReview: Option<bool>)
    | SetExtractionNotes(extractionNotes: Option<string>)
    | SetUncertainFields(uncertainFields: Option<seq<string>>)
    | SetCandidateDates(candidateDates: Option<seq<(string, seq<string>)>>)

  /** The columns of a row, one per key of the update dict (plus
      `notice_deadline`, which the request schema has no key for). */
  datatype Column =
    | DisplayNameCol | VendorNameCol | StartDateCol | EndDateCol | RenewalDateCol | RenewalTermCol
    | NoticePeriodDaysCol | NoticeDeadlineCol | NeedsReviewCol | ExtractionNotesCol
    | UncertainFieldsCol | CandidateDatesCol

  /** The attribute name of a column. */
  function ColumnName(col: Column): string {
    match col
    case DisplayNameCol => "display_name"
    case VendorNameCol => "vendor_name"
    case StartDateCol => "start_date"
    case EndDateCol => "end_date"
    case RenewalDateCol => "renewal_date"
    case RenewalTermCol => "renewal_term"
    case NoticePeriodDaysCol => "notice_period_days"
    case NoticeDeadlineCol => "notice_deadline"
    case NeedsReviewCol => "needs_review"
    case ExtractionNotesCol => "extraction_notes"
    case UncertainFieldsCol => "uncertain_fields"
    case CandidateDatesCol => "candidate_dates"
  }

  /** The column an update entry's key names. */
  function FieldColumn(u: FieldUpdate): Column {
    match u
    case SetDisplayName(_) => DisplayNameCol
    case SetVendorName(_) => VendorNameCol
    case SetStartDate(_) => StartDateCol
    case SetEndDate(_) => EndDateCol
    case SetRenewalDate(_) => RenewalDateCol
    case SetRenewalTerm(_) => RenewalTermCol
    case SetNoticePeriodDays(_) => NoticePeriodDaysCol
    case SetNeedsReview(_) => NeedsReviewCol
    case SetExtractionNotes(_) => ExtractionNotesCol
    case SetUncertainFields(_) => UncertainFieldsCol
    case SetCandidateDates(_) => CandidateDatesCol
  }

  /** Dates that pass request validation are calendar dates. */
  predicate UpdateValid(u: FieldUpdate) {
    match u
    case SetStartDate(d) => d.Some? ==> ValidDate(d.value)
    case SetEndDate(d) => d.Some? ==> ValidDate(d.value)
    case SetRenewalDate(d) => d.Some? ==> ValidDate(d.value)
    case _ => true
  }

  predicate UpdatesValid(us: seq<FieldUpdate>) {
    forall i :: 0 <= i < |us| ==> UpdateValid(us[i])
  }

  /** A dict has each key once. */
  predicate DistinctKeys(us: seq<FieldUpdate>) {
    forall i, j :: 0 <= i < j < |us| ==> ColumnName(FieldColumn(us[i])) != ColumnName(FieldColumn(us[j]))
  }

  /** `setattr(contract, field, value)`. */
  function SetField(r: Row, u: FieldUpdate): Row {
    match u
    case SetDisplayName(v) => r.(displayName := v)
    case SetVendorName(v) => r.(vendorName := v)
    case SetStartDate(v) => r.(startDate := v)
    case SetEndDate(v) => r.(endDate := v)
    case SetRenewalDate(v) => r.(renewalDate := v)
    case SetRenewalTerm(v) => r.(renewalTerm := v)
    case SetNoticePeriodDays(v) => r.(noticePeriodDays := v)
    case SetNeedsReview(v) => r.(needsReview := v)
    case SetExtractionNotes(v) => r.(extractionNotes := if v.Some? then Some(JString(v.value)) else None)
    case SetUncertainFields(v) => r.(uncertainFields := v)
    case SetCandidateDates(v) => r.(candidateDates := v)
  }

  /** The `setattr` loop, entry by entry. */
  function ApplyUpdates(r: Row, us: seq<FieldUpdate>): Row {
    if us == [] then r else SetField(ApplyUpdates(r, us[..|us| - 1]), us[|us| - 1])
  }

  /** The column `col` is the same in two rows. */
  predicate SameField(a: Row, b: Row, col: Column) {
    match col
    case DisplayNameCol => a.displayName == b.displayName
    case VendorNameCol => a.vendorName == b.vendorName
    case StartDateCol => a.startDate == b.startDate
    case EndDateCol => a.endDate == b.endDate
    case RenewalDateCol => a.renewalDate == b.renewalDate
    case RenewalTermCol => a.renewalTerm == b.renewalTerm
    case NoticePeriodDaysCol => a.noticePeriodDays == b.noticePeriodDays
    case NoticeDeadlineCol => a.noticeDeadline == b.noticeDeadline
    case NeedsReviewCol => a.needsReview == b.needsReview
    case ExtractionNotesCol => a.extractionNotes == b.extractionNotes
    case UncertainFieldsCol => a.uncertainFields == b.uncertainFields
    case CandidateDatesCol => a.candidateDates == b.candidateDates
  }
  /** The row holds the value an update entry gives its column. */
  predicate Holds(r: Row, u: FieldUpdate) {
    SameField(r, SetField(r, u), FieldColumn(u))
  }

  /** A column no entry names keeps its value. */
  lemma {:induction false} UpdateFrame(r: Row, us: seq<FieldUpdate>, col: Column)
    requires forall i :: 0 <= i < |us| ==> FieldColumn(us[i]) != col
    ensures SameField(ApplyUpdates(r, us), r, col)
  {
    if us != [] {
      var init := us[..|us| - 1];
      UpdateFrame(r, init, col);
      SetFieldFrame(ApplyUpdates(r, init), us[|us| - 1], col);
      SameFieldTransitive(ApplyUpdates(r, us), ApplyUpdates(r, init), r, col);
    }
  }

  lemma SetFieldFrame(r: Row, u: FieldUpdate, col: Column)
    requires FieldColumn(u) != col
    ensures SameField(SetField(r, u), r, col)
  {
  }

  lemma SameFieldTransitive(a: Row, b: Row, c: Row, col: Column)
    requires SameField(a, b, col) && SameField(b, c, col)
    ensures SameField(a, c, col)
  {
  }

  /** With distinct keys, every entry's value ends up in its column. */
  lemma {:induction false} UpdateSets(r: Row, us: seq<FieldUpdate>, i: nat)
    requires DistinctKeys(us) && i < |us|
    ensures Holds(ApplyUpdates(r, us), us[i])
  {
    var init := us[..|us| - 1];
    var last := us[|us| - 1];
    if i == |us| - 1 {
      SetFieldHolds(ApplyUpdates(r, init), last);
    } else {
      assert init[i] == us[i];
      UpdateSets(r, init, i);
      SetFieldFrame(ApplyUpdates(r, init), last, FieldColumn(us[i]));
      HoldsAfter(ApplyUpdates(r, init), SetField(ApplyUpdates(r, init), last), us[i]);
    }
  }

  lemma SetFieldHolds(r: Row, u: FieldUpdate)
    ensures Holds(SetField(r, u), u)
  {
  }

  lemma HoldsAfter(a: Row, b: Row, u: FieldUpdate)
    requires Holds(a, u) && SameField(b, a, FieldColumn(u))
    ensures Holds(b, u)
  {
  }

  /** `notice_deadline` is not an updatable field. */
  lemma DeadlineNotUpdatable(r: Row, us: seq<FieldUpdate>)
    ensures ApplyUpdates(r, us).noticeDeadline == r.noticeDeadline
  {
    forall i | 0 <= i < |us| ensures FieldColumn(us[i]) != NoticeDeadlineCol {
    }
    UpdateFrame(r, us, NoticeDeadlineCol);
  }

  /** Validated updates keep every stored date a calendar date. */
  lemma {:induction false} UpdatesKeepValid(r: Row, us: seq<FieldUpdate>)
    requires RowValid(r) && UpdatesValid(us)
    ensures RowValid(ApplyUpdates(r, us))
  {
    if us != [] {
      var init := us[..|us| - 1];
      assert UpdatesValid(init) by {
        forall i | 0 <= i < |init| ensures UpdateValid(init[i]) {
          assert init[i] == us[i];
        }
      }
      UpdatesKeepValid(r, init);
      SetFieldKeepsValid(ApplyUpdates(r, init), us[|us| - 1]);
    }
  }

  lemma SetFieldKeepsValid(r: Row, u: FieldUpdate)
    requires RowValid(r) && UpdateValid(u)
    ensures RowValid(SetField(r, u))
  {
  }

  /** `update_contract(contract_id, contract_update)`: `found` is the
      record the query finds (null for none). The entries are assigned in
      order, then the deadline is recomputed. When the recomputation raises
      OverflowError the request fails with 500 and, the session being closed
      without commit, the stored record keeps its old values. */
  method UpdateContract(found: Contract?, updates: seq<FieldUpdate>) returns (r: Result<Contract, HttpResponse>)
    requires found != null ==> found.Valid()
    requires UpdatesValid(updates)
    modifies if found != null then {found} else {}
    ensures found == null ==> r == Err(HttpErrorResponse(404, "Contract not found"))
    ensures found != null ==>
      && found.Valid()
      && found.id == old(found.id) && found.fileName == old(found.fileName) && found.pdfPath == old(found.pdfPath)
      && found.extractionStatus == old(found.extractionStatus)
      && found.extractionConfidence == old(found.extractionConfidence)
    ensures found != null ==>
      var target := ApplyUpdates(old(RowOf(found)), updates);
      && RowValid(target)
      && (r.Ok? <==> DeadlineFor(target.renewalDate, target.noticePeriodDays).Ok?)
      && (r.Ok? ==> r.value == found && RowOf(found) == target.(noticeDeadline := found.noticeDeadline)
                    && found.DeadlineConsistent())
      && (r.Err? ==> r.error == InternalError && RowOf(found) == old(RowOf(found)))
  {
    if found == null {
      return Err(HttpErrorResponse(404, "Contract not found"));
    }
    var c := found;
    var saved := RowOf(c);
    UpdatesKeepValid(saved, updates);
    AssignAll(c, updates);
    ghost var updated := RowOf(c);
    var ok := c.ComputeNoticeDeadline();
    assert RowOf(c) == updated.(noticeDeadline := c.noticeDeadline);
    if !ok {
      Restore(c, saved);
      return Err(InternalError);
    }
    return Ok(c);
  }

  /** The `setattr` loop over the update entries. */
  method AssignAll(c: Contract, updates: seq<FieldUpdate>)
    requires c.Valid() && UpdatesValid(updates)
    modifies c`displayName, c`vendorName, c`startDate, c`endDate, c`renewalDate, c`renewalTerm,
             c`noticePeriodDays, c`needsReview, c`extractionNotes, c`uncertainFields, c`candidateDates
    ensures c.Valid()
    ensures RowOf(c) == ApplyUpdates(old(RowOf(c)), updates)
  {
    ghost var saved := RowOf(c);
    for i := 0 to |updates|
      invariant c.Valid()
      invariant RowOf(c) == ApplyUpdates(saved, updates[..i])
    {
      SetAttr(c, updates[i]);
      assert updates[..i + 1][..i] == updates[..i];
    }
    assert updates[..|updates|] == updates;
  }

  /** `setattr(contract, field, value)` on the record. */
  method SetAttr(c: Contract, u: FieldUpdate)
    requires c.Valid() && UpdateValid(u)
    modifies c`displayName, c`vendorName, c`startDate, c`endDate, c`renewalDate, c`renewalTerm,
             c`noticePeriodDays, c`needsReview, c`extractionNotes, c`uncertainFields, c`candidateDates
    ensures c.Valid()
    ensures RowOf(c) == SetField(old(RowOf(c)), u)
  {
    ghost var before := RowOf(c);
    match u
    case SetDisplayName(v) =>
      c.displayName := v;
      assert RowOf(c) == before.(displayName := v);
    case SetVendorName(v) =>
      c.vendorName := v;
      assert RowOf(c) == before.(vendorName := v);
    case SetStartDate(v) =>
      c.startDate := v;
      assert RowOf(c) == before.(startDate := v);
    case SetEndDate(v) =>
      c.endDate := v;
      assert RowOf(c) == before.(endDate := v);
    case SetRenewalDate(v) =>
      c.renewalDate := v;
      assert RowOf(c) == before.(renewalDate := v);
    case SetRenewalTerm(v) =>
      c.renewalTerm := v;
      assert RowOf(c) == before.(renewalTerm := v);
    case SetNoticePeriodDays(v) =>
      c.noticePeriodDays := v;
      assert RowOf(c) == before.(noticePeriodDays := v);
    case SetNeedsReview(v) =>
      c.needsReview := v;
      assert RowOf(c) == before.(needsReview := v);
    case SetExtractionNotes(v) =>
      c.extractionNotes := if v.Some? then Some(JString(v.value)) else None;
      assert RowOf(c) == before.(extractionNotes := c.extractionNotes);
    case SetUncertainFields(v) =>
      c.uncertainFields := v;
      assert RowOf(c) == before.(uncertainFields := v);
    case SetCandidateDates(v) =>
      c.candidateDates := v;
      assert RowOf(c) == before.(candidateDates := v);
  }

  /** The uncommitted session is discarded: the row reads as before. */
  method Restore(c: Contract, saved: Row)
    requires RowValid(saved)
    modifies c`displayName, c`vendorName, c`startDate, c`endDate, c`renewalDate, c`renewalTerm,
             c`noticePeriodDays, c`noticeDeadline, c`needsReview, c`extractionNotes, c`uncertainFields,
             c`candidateDates
    ensures c.Valid() && RowOf(c) == saved
  {
    c.displayName := saved.displayName;
    c.vendorName := saved.vendorName;
    c.startDate := saved.startDate;
    c.endDate := saved.endDate;
    c.renewalDate := saved.renewalDate;
    c.renewalTerm := saved.renewalTerm;
    c.noticePeriodDays := saved.noticePeriodDays;
    c.noticeDeadline := saved.noticeDeadline;
    c.needsReview := saved.needsReview;
    c.extractionNotes := saved.extractionNotes;
    c.uncertainFields := saved.uncertainFields;
    c.candidateDates := saved.candidateDates;
  }
}
