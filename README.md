# Contract renewal pipeline: a Dafny model

The backend turns an uploaded purchase agreement (a PDF) into a contract
record, and the record into calendar entries. The path is:

1. The text of every page is pulled out, and OCR is used for near-empty
   pages.
2. A language model is asked for the contract terms as JSON.
3. The reply is cleaned and normalised: dates are parsed; the end date is
   derived from the start date and the renewal term; the notice period is
   coerced to a number; free text is trimmed.
4. The record stores these fields, together with review metadata
   (uncertain fields, candidate dates, a review flag and a confidence).
5. The notice deadline is the renewal date minus the notice period. It is
   derived again on every edit.
6. The calendar shows up to two events per contract, and the same events
   export as an iCalendar file with optional reminder alarms.

The model covers these modules:

- `Text`, `JsonValues` and `Dates`: the pieces of Python they rely on.
  These are `str.strip`, `str.lower`, `int(...)` on text, JSON values and
  their truthiness, and `datetime.date` with ordinals, `timedelta`
  subtraction and `fromisoformat`.
- `Terms`: `extract_months_from_term`.
- `PageMerge`: the per-page merge rule of `extract_text_from_pdf`.
- `Normalizer`: `validate_and_normalize_data`.
- `Extraction`: the cleaning of the model's reply in
  `extract_contract_data`.
- `Contracts`: the `Contract` record and `compute_notice_deadline`.
- `Calendar`: `generate_calendar_events`.
- `Ics`: `_alarm_block` and `generate_ics_content`.
- `Api`: four parts of `main.py`. These are `generate_smart_display_name`,
  the HTTP error envelope, the status logic of `_process_single_file`, and
  `update_contract`.

Loops in the source are modelled as methods with loops:

- the page loop;
- the date-field, key-scan and string-field loops of the normaliser;
- the month-carry loop;
- the candidate-cleaning loops;
- the event loop;
- the ICS event loop;
- the `setattr` loop.

Each of these methods is proved against a specification function. The
properties are proved about that function.

A `Contract` is a class. Its fields are the columns the handlers read or
assign, plus the review attributes that the upload path sets on it. Its methods modify
exactly the fields the source assigns.

Behaviours of the code worth noting:

- OCR is decided page by page: a page is re-read when its text layer,
  stripped of leading and trailing whitespace, is shorter than 20
  characters.
- An integer notice period passes through unchanged, even a negative one.
- An edit assigns every field it names. This includes `uncertain_fields`
  and `candidate_dates`.
- A renewal date with a notice period of 0 gives no deadline, because 0
  is falsy.

The number-word table of `extract_months_from_term` is modelled twice.
`Terms.MonthsFromTermAsWritten` tries the words in the dictionary's order,
as the code does, and it is the one the normaliser uses.
`Terms.MonthsFromTerm` tries "twenty-four" and "thirty-six" before "four"
and "six", as the code evidently intends. See "## Findings".

## Model

| member | source | states |
|---|---|---|
| Terms.MonthsFromTermRules | backend/app/pdf_extractor.py:44-71 | On the lower-cased term, the first "month" match gives the digit run before it. Failing that, the first "year" match gives 12 times its run. Failing that, the word table is scanned in the dictionary's order. The match always begins a digit run. The result is None exactly when no unit matches and no word phrase occurs. |
| Terms.MatchBeginsRun | backend/app/pdf_extractor.py:49-56 | The leftmost match of `(\d+)\s*unit` starts at the first digit of its run, so the whole number is read. |
| Terms.WordScanFirstHit | backend/app/pdf_extractor.py:65-69 | For any word table, the scan returns the months of the first entry whose "word month" or "word year" phrase occurs, with "month" tried before "year". No earlier entry occurs. |
| Terms.YearsOrMonthsGivesMonths | backend/app/pdf_extractor.py:49-56 | "2 years or 24 months" gives 24: a month count wins over a year count that comes earlier. |
| Terms.ShortWordlessTermGivesNone | backend/app/pdf_extractor.py:59-71 | As written, a digit-free term shorter than 8 characters gives None: every table phrase is longer. |
| Terms.TwentyFourMonthsGivesFour | backend/app/pdf_extractor.py:59-69 | As written, "twenty-four months" gives 4, because "four month" is tried before the compound entry. |
| Terms.CompoundHitsPart | backend/app/pdf_extractor.py:59-69 | In dictionary order, a text that hits "twenty-four" or "thirty-six" also hits "four" or "six", which come earlier. |
| Terms.CompoundsNeverDecide | backend/app/pdf_extractor.py:59-69 | As written, the scan never stops at a compound entry, whatever the text. |
| Terms.TwentyFourMonthsGivesTwentyFour | backend/app/pdf_extractor.py:48-69 | With the compounds tried first, "twenty-four months" gives 24. |
| Terms.CompoundsFirstDecide | backend/app/pdf_extractor.py:59-69 | With the compounds tried first, a "twenty-four month" phrase gives 24. A "thirty-six month" phrase without one gives 36. |
| Terms.CorrectionOnlyForCompounds | backend/app/pdf_extractor.py:59-69 | For a text with no compound phrase, the corrected order and the dictionary order give the same result. |
| PageMerge.PageRule | backend/app/pdf_extractor.py:24-34 | A page with at least 20 stripped layer characters keeps its layer. Non-blank OCR text replaces a short layer. A failed or blank OCR keeps the layer. A page is blank exactly when its layer is blank and OCR gave nothing usable. |
| PageMerge.ExtractTextFromPdf | backend/app/pdf_extractor.py:14-42 | The page loop returns exactly the kept page texts joined by newlines and stripped. An unreadable document gives "". |
| PageMerge.KeepPageText | backend/app/pdf_extractor.py:24-37 | One loop step keeps exactly the page's merged text. |
| PageMerge.MergedEmpty | backend/app/pdf_extractor.py:39-42 | The document text is empty exactly when the document is unreadable or every kept page text is blank. |
| PageMerge.MergedIsStripped | backend/app/pdf_extractor.py:39 | The returned text has no surrounding whitespace. |
| PageMerge.PagesInOrder | backend/app/pdf_extractor.py:37-39 | Page i's text occurs in the joined text at the offset after pages 0..i-1 and their separators. |
| Text.JoinBlank | backend/app/pdf_extractor.py:39 | A join with a blank separator is blank exactly when every part is blank. |
| Text.StripIdempotent | backend/app/pdf_extractor.py:263 | Stripping twice equals stripping once. |
| Normalizer.ParsedDate | backend/app/pdf_extractor.py:193-203 | A parsed date field is always a calendar date. |
| Normalizer.ParsedDateIsCanonical | backend/app/pdf_extractor.py:194-199 | A date is parsed only from a present, truthy value whose text is the date's ISO form. |
| Normalizer.ParsedDateOfIso | backend/app/pdf_extractor.py:194-199 | A field holding a date's ISO text parses to that date. |
| Normalizer.ParsedDateOfFalsy | backend/app/pdf_extractor.py:194-203 | A missing or falsy field gives None. |
| Normalizer.TermMonthsPrecedence | backend/app/pdf_extractor.py:208-219 | A true month count from `renewal_term` wins. Otherwise the first entry (in order) that names a term length and gives a true count decides. There is no count exactly when no entry qualifies. |
| Normalizer.EndDateRules | backend/app/pdf_extractor.py:205-237 | A parsed end date, or a missing start date, leaves the end date as it is. With no month count the end stays None. Otherwise the end is the start plus that many months. Its year*12+month then grows by exactly the count, it falls strictly after the start, and its day is at most the start's day. The only error is ValueError past year 9999. |
| Normalizer.NoticeRules | backend/app/pdf_extractor.py:240-257 | A falsy value gives None. A value `int()` accepts passes through. Otherwise the first parenthesised number wins, then the first number, else None. A number found in text is non-negative. |
| Normalizer.NumberInTextRules | backend/app/pdf_extractor.py:247-255 | The text fallback on its own: a parenthesised number, then the first digit run, else None. |
| Normalizer.NoticeOfInt | backend/app/pdf_extractor.py:240-244 | An integer JSON value is kept, except 0, which is falsy and gives None. |
| Normalizer.NoticeOfRenderedInt | backend/app/pdf_extractor.py:243 | The decimal text of a non-zero integer gives that integer. |
| Normalizer.NoticeOfSixtyDays | backend/app/pdf_extractor.py:245-253 | "sixty (60) days" gives 60 by the parenthesis rule. |
| Normalizer.TextFieldRules | backend/app/pdf_extractor.py:260-265 | A text field is set exactly when it is truthy. It is then stripped, so a whitespace-only string becomes "" and not None. |
| Normalizer.OtherFieldsIndependent | backend/app/pdf_extractor.py:192-267 | When normalisation succeeds, each field other than the end date is exactly its own field rule. |
| Normalizer.NormalizedDatesValid | backend/app/pdf_extractor.py:193-237 | Every date in a normalised result, derived end included, is a calendar date. |
| Normalizer.ValidateAndNormalize | backend/app/pdf_extractor.py:188-267 | The imperative normaliser returns exactly the specified normalisation, error included. |
| Normalizer.NormalizeDateFields | backend/app/pdf_extractor.py:193-203 | The date loop maps each of the four date fields to its parsed date. |
| Normalizer.FindTermMonths | backend/app/pdf_extractor.py:206-219 | The term search finds a true count exactly when the specified precedence does, and then the same count. |
| Normalizer.CoerceNoticeDays | backend/app/pdf_extractor.py:240-257 | The coercion returns exactly the specified notice period. |
| Normalizer.TrimTextFields | backend/app/pdf_extractor.py:260-265 | The string loop maps both text fields to their trimmed values. |
| Dates.AddMonthsProperties | backend/app/pdf_extractor.py:228-235 | Adding months gives a calendar date exactly that many months on. Its day is kept, or clamped to the month's last day. It fails exactly past year 9999. It is never earlier than the start, and strictly later for a positive count. |
| Dates.AddMonthsFallback | backend/app/pdf_extractor.py:228-235 | The carry loop and the day clamp compute exactly that month addition. |
| Dates.SubtractDays | backend/app/models.py:28 | Subtracting days fails exactly when the ordinal leaves 1..3652059. Otherwise the result is a calendar date exactly that many days earlier. |
| Dates.OrdinalRoundTrip | backend/app/models.py:28 | Converting a date to its ordinal and back gives the same date. |
| Dates.OrdinalOrder | backend/app/models.py:28 | Date order is ordinal order. |
| Dates.IsoRoundTrip | backend/app/pdf_extractor.py:166-167 | `fromisoformat(d.isoformat()) == d`. |
| Dates.IsoParseCanonical | backend/app/pdf_extractor.py:166-167 | Any text that parses is the ISO form of what it parses to. |
| Dates.BasicRoundTrip | backend/app/calendar_service.py:78-79 | The YYYYMMDD form reads back as the same date. |
| JsonValues.ParseIntOfRendering | backend/app/pdf_extractor.py:243 | `int(str(n)) == n`. |
| Extraction.CleanCandidates | backend/app/pdf_extractor.py:159-171 | The cleaning loop returns exactly the specified candidate map. It fails when the value is truthy but not an object. |
| Extraction.CleanList | backend/app/pdf_extractor.py:163-169 | The inner loop keeps exactly the parseable items, in order, in ISO form. |
| Extraction.IsoCandidatesProperties | backend/app/pdf_extractor.py:163-169 | Every kept candidate is canonical ISO text. Cleaning two lists in a row equals cleaning each and concatenating. |
| Extraction.IsoCandidatesOfCanonical | backend/app/pdf_extractor.py:163-169 | A list of ISO strings is kept whole. |
| Extraction.Take3 | backend/app/pdf_extractor.py:171 | At most three candidates are kept, as a prefix. A list of three or fewer is unchanged. |
| Extraction.CleanedSound | backend/app/pdf_extractor.py:160-171 | Every kept entry comes from an input key holding a list. It keeps at most the first three parseable candidates, as canonical ISO text. |
| Extraction.CleanedComplete | backend/app/pdf_extractor.py:160-171 | Every allowed key whose list has at least one parseable candidate appears in the result, with its cleaned list. |
| Extraction.UncertainRules | backend/app/pdf_extractor.py:172 | The kept uncertain fields are allowed field names. For an object, they are exactly its allowed keys. A string keeps none. A number or boolean raises. |
| Extraction.FilterAllowedAppend | backend/app/pdf_extractor.py:172 | Filtering distributes over concatenation and keeps order. |
| Extraction.ExtractRules | backend/app/pdf_extractor.py:148-186 | On success: the review flag is set exactly when some uncertain field survives, every uncertain field is allowed, and the fields are the normaliser's. The result fails exactly when there is no reply, the reply is not an object, normalisation raises, or the metadata cannot be iterated. |
| Extraction.ExtractedDatesValid | backend/app/pdf_extractor.py:148-186 | Extracted dates are calendar dates. |
| Extraction.ExtractContractData | backend/app/pdf_extractor.py:148-186 | The imperative extraction returns exactly the specified result. |
| Contracts.DeadlineRules | backend/app/models.py:25-30 | A deadline is set exactly with a renewal date and a non-zero notice period. It is then a calendar date exactly that many days before the renewal date. The only failure is leaving the calendar range. |
| Contracts.DeadlineBeforeRenewal | backend/app/models.py:28 | A positive period shorter than the days since 0001-01-01 gives a deadline strictly before the renewal date. |
| Contracts.DeadlineExample | backend/app/models.py:28 | 30 days before 2024-06-30 is 2024-05-31. |
| Contracts.Contract.constructor | backend/app/models.py:6-23 | A new record is pending and every other modelled column is null. |
| Contracts.Contract.ComputeNoticeDeadline | backend/app/models.py:25-30 | Only `notice_deadline` changes. On success it is the derived deadline. On overflow it is left as it was. |
| Contracts.RecomputeTwice | backend/app/models.py:25-30 | Recomputing the deadline twice gives the same outcome and deadline as once. |
| Calendar.GenerateCalendarEvents | backend/app/calendar_service.py:7-47 | The loop returns exactly each record's events, record by record, in input order. |
| Calendar.AppendEventsOf | backend/app/calendar_service.py:12-45 | One loop step appends exactly that record's events. |
| Calendar.EventsForKinds | backend/app/calendar_service.py:15-45 | A notice event exists exactly when a deadline is set, and a renewal event exactly when a renewal date is set. An expiration event exists exactly when an end date is set and the renewal date is not. |
| Calendar.EventsForFields | backend/app/calendar_service.py:12-45 | Each event carries its kind's source date, the id `<prefix><contract id>`, the contract id, the title `<name> — <label>` and its kind's subtitle. |
| Calendar.EventsForParts | backend/app/calendar_service.py:15-45 | The notice event comes first. The other event is the renewal event when there is a renewal date, and the expiration event otherwise. |
| Calendar.EventsForShape | backend/app/calendar_service.py:15-45 | A record has at most two events. Renewal and expiration never coexist. Kinds appear in the order notice, renewal, expiration, each at most once. |
| Calendar.EventIdsDistinct | backend/app/calendar_service.py:17-39 | Two events with the same id have the same contract and kind. |
| Calendar.AllEventsAppend | backend/app/calendar_service.py:9-47 | The events of two record lists in a row are the two event lists in a row. |
| Calendar.AllEventsCount | backend/app/calendar_service.py:9-47 | There are at most twice as many events as records. |
| Ics.AlarmBlock | backend/app/calendar_service.py:49-60 | The alarm is empty exactly when there is no reminder or it is not positive. Otherwise it is the 5-line VALARM block. |
| Ics.AlarmLeadTime | backend/app/calendar_service.py:52-60 | The trigger reads back as exactly the requested number of whole days before the event, in minutes. |
| Ics.GenerateIcsContent | backend/app/calendar_service.py:62-108 | The builder returns exactly the header, one block per event, the footer, joined with CRLF. |
| Ics.AppendEvents | backend/app/calendar_service.py:76-103 | The event loop appends exactly the events' blocks in order. |
| Ics.AppendBlock | backend/app/calendar_service.py:78-103 | One loop step appends exactly that event's block. |
| Ics.IcsFrame | backend/app/calendar_service.py:66-106 | The file has 8 + n*b lines, where b = 11 + the alarm length. It starts with the 7 header lines and ends with END:VCALENDAR. |
| Ics.EventAt | backend/app/calendar_service.py:76-103 | Event k's block sits at lines 7+k*b up to 7+(k+1)*b. |
| Ics.EventBlockLines | backend/app/calendar_service.py:78-102 | A block opens and closes VEVENT and carries the event's UID. DTSTART and DTEND read back as the event's date. The DTSTAMP line holds the stamp. Priority 1 is used exactly for notice deadlines. The alarm comes last. |
| Ics.UidsDistinct | backend/app/calendar_service.py:82 | Equal UID lines mean equal event ids. |
| Ics.StampsOnlyInDtstamp | backend/app/calendar_service.py:93 | Two exports that differ only in their clock have the same length. They differ only on DTSTAMP lines. |
| Ics.ContentEnds | backend/app/calendar_service.py:66-108 | The text starts with BEGIN:VCALENDAR and a CRLF. It ends with a CRLF and END:VCALENDAR, with no CRLF after that. |
| Api.DisplayNameRules | backend/app/main.py:48-55 | A non-empty vendor name wins, trimmed. Otherwise a file name without '.' is kept whole. Else exactly its last extension is dropped: the result, '.', and a dot-free suffix spell the file name. |
| Api.DisplayNameExample | backend/app/main.py:55 | "Acme-MSA.2024.pdf" becomes "Acme-MSA.2024". |
| Api.ErrorCodeRoundTrip | backend/app/main.py:71-82 | Statuses 400, 401, 403 and 404 get distinct codes that read back as the status. Every other status gets `http_error`. |
| Api.ErrorResponseReadsBack | backend/app/main.py:71-86 | The status passes through, and `error.code` and `error.message` read back from the body. |
| Api.UploadStageRules | backend/app/main.py:106-180 | A file fails for lack of text exactly when the document is unreadable or every page is blank. It succeeds exactly when the text is non-blank, extraction succeeds and the deadline stays in range. A stored record gets reduced confidence exactly when some field was uncertain. |
| Api.ProcessSingleFile | backend/app/main.py:106-182 | The record is created pending and ends success exactly when the stage is Stored, failed otherwise. Without text or data it keeps empty columns. On overflow it keeps the copied fields without confidence. On success it holds the extracted row, a consistent deadline and the confidence for its review flag. |
| Api.FillRecord | backend/app/main.py:145-169 | The success path copies the extracted row and computes the deadline. The outcome is success exactly when that does not overflow. |
| Api.CopyExtracted | backend/app/main.py:145-162 | The record's columns become exactly the extracted row, with the display name derived. |
| Api.SetOutcome | backend/app/main.py:166-168 | The status is success or failed. Confidence is set from the review flag only on success. |
| Api.UpdateFrame | backend/app/main.py:219-220 | A column that no update entry names keeps its value. |
| Api.UpdateSets | backend/app/main.py:219-220 | With distinct keys, every entry's value ends up in its column. |
| Api.DeadlineNotUpdatable | backend/app/main.py:219-223 | No update entry writes the deadline column directly. |
| Api.UpdatesKeepValid | backend/app/main.py:219-220 | Valid updates keep every stored date a calendar date. |
| Api.UpdateContract | backend/app/main.py:204-227 | A missing record gives 404 "Contract not found". Otherwise the record ends as the updated row with a consistent recomputed deadline, and identity, status and confidence are unchanged. A deadline overflow gives the 500 envelope and leaves the row as it was. |
| Api.AssignAll | backend/app/main.py:219-220 | The loop leaves the record equal to the updates applied to its old row. |
| Api.SetAttr | backend/app/main.py:220 | One `setattr` changes exactly the named column. |
| Api.Restore | backend/app/main.py:223-227 | A rolled-back request leaves the record equal to the saved row. |

## Left out

- Contracts.Contract: the two server-clock timestamp columns `created_at` and `updated_at` (models.py:21-22) are not modelled. The database fills them from its clock on insert and update, as the clock behind DTSTAMP is left out.
- I/O is outside the model: the PDF and OCR libraries, and the HTTP call to the inference service with its JSON decoding. The per-page text layer and the OCR outcome are inputs (`PageScan`). The decoded reply, or its absence, is an input (`InferenceOutcome`).
- Dates.AddMonths: the `relativedelta` branch is not modelled. Only the fallback used when `dateutil` cannot be imported is modelled. The two agree except for years past 9999.
- Dates.ParseIso: the code's `datetime.fromisoformat(str(x)).date()` is modelled only on `YYYY-MM-DD`. Datetime strings (`2024-01-01T09:30:00`, `2024-01-01 09:30`) and the other ISO 8601 forms Python 3.11 accepts, such as `20240101`, parse to None in the model. A date field holding one is then cleared, and such a candidate is dropped.
- Text.Lower: ASCII only, and digits are the ASCII digits only. Unicode case mapping and Unicode digits are left out. Whitespace is CPython's full set, as `str.strip()`, `int()` and `\s` use it.
- JsonValues: there are no floats. `str()` of a list or object (`Repr`) uses simplified quoting. Duplicate JSON keys are not modelled, since `json.loads` keeps the last and lookup here takes the first. The 4300-digit limit of `int()` is not modelled.
- Contracts.Confidence: the float confidence 0.7 / 1.0 is an enumeration.
- Ics.GenerateIcsContent: the DTSTAMP clock reading is a parameter, one stamp per event. Long lines are not folded at 75 octets (section 3.1 of RFC 5545), as in the code. There is no trailing CRLF after END:VCALENDAR, also as in the code.
- Api.ProcessSingleFile: exceptions other than the deadline overflow are not modelled. These are database errors, the file write, and failures before the record exists. Uploads run concurrently in the code; that concurrency is not modelled. The session commit is not modelled.
- Api.UpdateContract: the database session is not modelled, and `db.commit()`/`db.refresh()` are left out. The overflow leaves the 500 handler to answer, with the uncommitted changes discarded; this is modelled by `Restore`. Request validation is assumed (`UpdatesValid`): dates arrive as dates. An `extraction_notes` edit is stored as a JSON string. A `candidate_dates` edit is kept as field/text-list pairs.
- Api: `validation_exception_handler` (422) is not modelled. `generic_exception_handler` is modelled only as the constant `InternalError` response.
- The review attributes set by the upload path (`needs_review`, `extraction_notes`, `uncertain_fields`, `candidate_dates`) are not mapped columns in `models.py`. They are modelled as object fields.
- An end date that overflows during normalisation fails the whole extraction, as the code's outer handler does. The model does not recover it.
- Terms.MonthsFromTermAsWritten: `\d` is the ASCII digit class; `\s` is CPython's whitespace set, the same one `Text.IsSpace` gives `str.strip()`.
- Ics.GenerateIcsContent: years below 1000 are assumed zero-padded to four digits in the YYYYMMDD dates, as newer CPython does. On glibc builds of older CPython, `strftime("%Y")` does not pad such years, so DTSTART and DTEND would have 7 digits.
- Email reminders, the CRUD endpoints other than update, the routes that only read, and the migrations are not part of this model.

## Findings

| source | as written | input that shows it | evidently intended | confidence | as-written member | corrected member |
|---|---|---|---|---|---|---|
| backend/app/pdf_extractor.py:59-69 | The number words are tried in the dictionary's order, so "four" is tried before "twenty-four" and "six" before "thirty-six". A text containing a compound phrase always contains its last part as well. | "twenty-four months" gives 4, not 24. Any "thirty-six …" phrase is read as six. | The compound entries count as 24 and 36. The comment at line 48 names "twenty-four months" as a phrase to handle, and the table lists both compounds. | high; not executed | Terms.MonthsFromTermAsWritten; Terms.TwentyFourMonthsGivesFour; Terms.CompoundsNeverDecide | Terms.MonthsFromTerm; Terms.TwentyFourMonthsGivesTwentyFour; Terms.CorrectionOnlyForCompounds |
