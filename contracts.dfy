/** The `Contract` record and `compute_notice_deadline`: the last day to give
    notice is the renewal date minus the notice period. */
module Contracts {
  import opened Wrappers
  import opened Dates
  import opened JsonValues

  /** `extraction_status`: pending | success | failed. */
  datatype Status = Pending | Success | Failed

  /** `extraction_confidence`: the backend only ever stores 0.7 (the record
      needs review) or 1.0. */
  datatype Confidence = Reduced | Full

  /** The deadline that `compute_notice_deadline` assigns, or the exception
      it raises. Python's truthiness decides: no renewal date, no notice
      period or a zero notice period give None; otherwise the renewal date
      minus that many days, which raises OverflowError outside years
      1..9999. */
  function DeadlineFor(renewal: Option<Date>, days: Option<int>): (r: Result<Option<Date>, PyError>)
    requires renewal.Some? ==> ValidDate(renewal.value)
  {
    if renewal.Some? && days.Some? && days.value != 0 then
      match SubtractDays(renewal.value, days.value)
      case Some(d) => Ok(Some(d))
      case None => Err(OverflowError)
    else Ok(None)
  }

  /** A deadline is set exactly when there is a renewal date and a non-zero
      notice period; it is a valid date exactly that many days before the
      renewal date (after it, for a negative period). The only failure is
      leaving the calendar range. */
  lemma DeadlineRules(renewal: Option<Date>, days: Option<int>)
    requires renewal.Some? ==> ValidDate(renewal.value)
    ensures renewal.None? || days.None? || days.value == 0 ==> DeadlineFor(renewal, days) == Ok(None)
    ensures DeadlineFor(renewal, days).Err? <==>
      renewal.Some? && days.Some? && days.value != 0 && !(1 <= Ordinal(renewal.value) - days.value <= MaxOrdinal)
    ensures DeadlineFor(renewal, days).Ok? && DeadlineFor(renewal, days).value.Some? ==>
      var d := DeadlineFor(renewal, days).value.value;
      && renewal.Some? && days.Some? && days.value != 0
      && ValidDate(d)
      && Ordinal(renewal.value) - Ordinal(d) == days.value
  {
  }

  /** A positive notice period puts the deadline strictly before the renewal
      date, and it never overflows while the period is shorter than the
      days since 0001-01-01. */
  lemma DeadlineBeforeRenewal(renewal: Date, n: int)
    requires ValidDate(renewal) && 0 < n < Ordinal(renewal)
    ensures DeadlineFor(Some(renewal), Some(n)).Ok?
    ensures DeadlineFor(Some(renewal), Some(n)).value.Some?
    ensures Before(DeadlineFor(Some(renewal), Some(n)).value.value, renewal)
  {
    OrdinalRange(renewal);
    SubtractPositiveDays(renewal, n);
  }

  /** 30 days' notice before a renewal on 2024-06-30 falls on 2024-05-31. */
  lemma DeadlineExample()
    ensures DeadlineFor(Some(Date(2024, 6, 30)), Some(30)) == Ok(Some(Date(2024, 5, 31)))
  {
    ThirtyDaysBefore(Date(2024, 6, 30), Date(2024, 5, 31));
  }

  lemma ThirtyDaysBefore(renewal: Date, deadline: Date)
    requires renewal == Date(2024, 6, 30) && deadline == Date(2024, 5, 31)
    ensures ValidDate(renewal) && SubtractDays(renewal, 30) == Some(deadline)
  {
    assert DaysBeforeYear(2024) == 738885;
    assert DaysBeforeMonth(2024, 5) == 121;
    assert DaysBeforeMonth(2024, 6) == 152;
    assert Ordinal(deadline) == 739037;
    assert Ordinal(renewal) == 739067;
    OrdinalRoundTrip(deadline);
    OrdinalRange(renewal);
  }

  /** The contracts table row, as the backend handles it in memory. The
      review metadata (`needs_review` to `candidate_dates`) is assigned on the
      object by the upload path. The server-clock columns `created_at` and
      `updated_at` are not modelled. */
  class Contract {
    var id: int
    var fileName: string
    var pdfPath: string
    var displayName: Option<string>
    var vendorName: Option<string>
    var startDate: Option<Date>
    var endDate: Option<Date>
    var renewalDate: Option<Date>
    var renewalTerm: Option<string>
    var noticePeriodDays: Option<int>
    var noticeDeadline: Option<Date>
    var extractionStatus: Status
    var extractionConfidence: Option<Confidence>
    var needsReview: Option<bool>
    var extractionNotes: Option<Json>
    var uncertainFields: Option<seq<string>>
    var candidateDates: Option<seq<(string, seq<string>)>>

    /** Every stored date is a calendar date (a `Date` column). */
    predicate Valid()
      reads this
    {
      && (startDate.Some? ==> ValidDate(startDate.value))
      && (endDate.Some? ==> ValidDate(endDate.value))
      && (renewalDate.Some? ==> ValidDate(renewalDate.value))
      && (noticeDeadline.Some? ==> ValidDate(noticeDeadline.value))
    }

    /** The stored deadline is what `compute_notice_deadline` derives from the
        stored renewal date and notice period. */
    predicate DeadlineConsistent()
      reads this
      requires Valid()
    {
      DeadlineFor(renewalDate, noticePeriodDays) == Ok(noticeDeadline)
    }

    /** `models.Contract(file_name=..., pdf_path=...)`: a new record is
        pending and every other column is null; `id` is the key the
        database assigns. */
    constructor(id: int, fileName: string, pdfPath: string)
      ensures Valid()
      ensures this.id == id && this.fileName == fileName && this.pdfPath == pdfPath
      ensures extractionStatus == Pending
      ensures displayName.None? && vendorName.None? && renewalTerm.None? && noticePeriodDays.None?
      ensures startDate.None? && endDate.None? && renewalDate.None? && noticeDeadline.None?
      ensures extractionConfidence.None? && needsReview.None? && extractionNotes.None?
      ensures uncertainFields.None? && candidateDates.None?
      ensures DeadlineConsistent()
    {
      this.id := id;
      this.fileName := fileName;
      this.pdfPath := pdfPath;
      displayName := None;
      vendorName := None;
      startDate := None;
      endDate := None;
      renewalDate := None;
      renewalTerm := None;
      noticePeriodDays := None;
      noticeDeadline := None;
      extractionStatus := Pending;
      extractionConfidence := None;
      needsReview := None;
      extractionNotes := None;
      uncertainFields := None;
      candidateDates := None;
    }

    /** `compute_notice_deadline()`: assigns `notice_deadline` and nothing
        else. `ok` is false where Python raises OverflowError, and then
        nothing is assigned. */
    method ComputeNoticeDeadline() returns (ok: bool)
      requires Valid()
      modifies this`noticeDeadline
      ensures Valid()
      ensures ok <==> DeadlineFor(renewalDate, noticePeriodDays).Ok?
      ensures ok ==> DeadlineConsistent()
      ensures !ok ==> noticeDeadline == old(noticeDeadline)
    {
      if renewalDate.Some? && noticePeriodDays.Some? && noticePeriodDays.value != 0 {
        var d := SubtractDays(renewalDate.value, noticePeriodDays.value);
        if d.None? {
          return false;
        }
        noticeDeadline := d;
      } else {
        noticeDeadline := None;
      }
      return true;
    }
  }

  /** Recomputing is idempotent: a second call changes nothing, since the
      method reads only fields it does not assign. */
  method RecomputeTwice(c: Contract) returns (first: bool, second: bool)
    requires c.Valid()
    modifies c`noticeDeadline
    ensures c.Valid() && first == second
    ensures first ==> c.DeadlineConsistent()
    ensures !first ==> c.noticeDeadline == old(c.noticeDeadline)
  {
    first := c.ComputeNoticeDeadline();
    var afterFirst := c.noticeDeadline;
    second := c.ComputeNoticeDeadline();
    assert c.noticeDeadline == afterFirst;
  }
}
