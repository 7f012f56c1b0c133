/** `generate_calendar_events`: up to two dated events per contract record
    (notice deadline, renewal date, or expiration when there is no renewal
    date). */
module Calendar {
  import opened Wrappers
  import opened Text
  import opened Dates
  import opened Contracts

  /** `CalendarEvent.kind`. */
  datatype Kind = NoticeDeadline | RenewalDate | Expiration

  datatype CalendarEvent = CalendarEvent(
    id: string,
    contractId: int,
    date: Date,
    kind: Kind,
    title: string,
    subtitle: string)

  /** The separator of a title: a space, an em dash, a space. */
  const TitleDash: string := " — "

  function KindName(k: Kind): string {
    match k
    case NoticeDeadline => "notice_deadline"
    case RenewalDate => "renewal_date"
    case Expiration => "expiration"
  }

  /** The prefix of an event id. */
  function IdPrefix(k: Kind): string {
    match k
    case NoticeDeadline => "notice_"
    case RenewalDate => "renewal_"
    case Expiration => "expiration_"
  }

  /** The fixed label at the end of a title. */
  function Label(k: Kind): string {
    match k
    case NoticeDeadline => "Notice Deadline"
    case RenewalDate => "Renewal Date"
    case Expiration => "Expiration"
  }

  function Subtitle(k: Kind): string {
    match k
    case NoticeDeadline => "Last day to provide renewal notice"
    case RenewalDate => "Contract renewal date"
    case Expiration => "Contract expiration date"
  }

  /** `contract.display_name or contract.file_name`. */
  function EventName(displayName: Option<string>, fileName: string): string {
    if displayName.Some? && displayName.value != "" then displayName.value else fileName
  }

  function MakeEvent(id: int, name: string, date: Date, k: Kind): CalendarEvent {
    CalendarEvent(IdPrefix(k) + IntToString(id), id, date, k, name + TitleDash + Label(k), Subtitle(k))
  }

  /** What `generate_calendar_events` reads of a record: its id, the name
      for titles, and the three dates. */
  datatype EventSource = EventSource(id: int, name: string, notice: Option<Date>, renewal: Option<Date>, end: Option<Date>)

  function SourceOf(c: Contract): EventSource
    reads c
  {
    EventSource(c.id, EventName(c.displayName, c.fileName), c.noticeDeadline, c.renewalDate, c.endDate)
  }

  function Sources(cs: seq<Contract>): (r: seq<EventSource>)
    reads set c | c in cs
    ensures |r| == |cs|
    ensures forall i :: 0 <= i < |cs| ==> r[i] == SourceOf(cs[i])
  {
    seq(|cs|, i reads set c | c in cs requires 0 <= i < |cs| => SourceOf(cs[i]))
  }

  /** The events of one record. */
  function EventsFor(s: EventSource): seq<CalendarEvent> {
    (if s.notice.Some? then [MakeEvent(s.id, s.name, s.notice.value, NoticeDeadline)] else [])
    + (if s.renewal.Some? then [MakeEvent(s.id, s.name, s.renewal.value, RenewalDate)] else [])
    + (if s.end.Some? && s.renewal.None? then [MakeEvent(s.id, s.name, s.end.value, Expiration)] else [])
  }

  /** The blocks of a list, one after the other. */
  function Concat<T>(xss: seq<seq<T>>): seq<T> {
    if xss == [] then [] else Concat(xss[..|xss| - 1]) + xss[|xss| - 1]
  }

  lemma {:induction false} ConcatAppend<T>(a: seq<seq<T>>, b: seq<seq<T>>)
    ensures Concat(a + b) == Concat(a) + Concat(b)
    decreases |b|
  {
    if b == [] {
      assert a + b == a;
    } else {
      var init := b[..|b| - 1];
      var last := b[|b| - 1];
      ConcatAppend(a, init);
      assert (a + b)[..|a + b| - 1] == a + init;
      assert (a + b)[|a + b| - 1] == last;
      assert Concat(a + b) == Concat(a + init) + last;
      assert Concat(b) == Concat(init) + last;
    }
  }

  function PerRecord(ss: seq<EventSource>): (r: seq<seq<CalendarEvent>>)
    ensures |r| == |ss|
    ensures forall i :: 0 <= i < |ss| ==> r[i] == EventsFor(ss[i])
  {
    seq(|ss|, i requires 0 <= i < |ss| => EventsFor(ss[i]))
  }

  /** All events, record by record, in input order. */
  function AllEvents(ss: seq<EventSource>): seq<CalendarEvent> {
    Concat(PerRecord(ss))
  }

  /** `generate_calendar_events(contracts)`. */
  method GenerateCalendarEvents(cs: seq<Contract>) returns (events: seq<CalendarEvent>)
    ensures events == AllEvents(Sources(cs))
  {
    var ss := Sources(cs);
    events := [];
    for i := 0 to |cs|
      invariant events == AllEvents(ss[..i])
    {
      events := AppendEventsOf(cs[i], events);
      AllEventsPrefix(ss, i);
    }
    assert ss[..|cs|] == ss;
  }

  /** One pass of the loop: the record's events appended in the order
      notice, renewal, expiration. */
  method AppendEventsOf(c: Contract, before: seq<CalendarEvent>) returns (events: seq<CalendarEvent>)
    ensures events == before + EventsFor(SourceOf(c))
  {
    events := before;
    var name := EventName(c.displayName, c.fileName);
    if c.noticeDeadline.Some? {
      events := events + [MakeEvent(c.id, name, c.noticeDeadline.value, NoticeDeadline)];
    }
    if c.renewalDate.Some? {
      events := events + [MakeEvent(c.id, name, c.renewalDate.value, RenewalDate)];
    }
    if c.endDate.Some? && c.renewalDate.None? {
      events := events + [MakeEvent(c.id, name, c.endDate.value, Expiration)];
    }
    EventsOfRecord(SourceOf(c), before, events);
  }

  /** What one pass of the loop appends. */
  lemma EventsOfRecord(s: EventSource, before: seq<CalendarEvent>, after: seq<CalendarEvent>)
    requires after == before
      + (if s.notice.Some? then [MakeEvent(s.id, s.name, s.notice.value, NoticeDeadline)] else [])
      + (if s.renewal.Some? then [MakeEvent(s.id, s.name, s.renewal.value, RenewalDate)] else [])
      + (if s.end.Some? && s.renewal.None? then [MakeEvent(s.id, s.name, s.end.value, Expiration)] else [])
    ensures after == before + EventsFor(s)
  {
  }

  /** A record has an event of a kind exactly when the corresponding date is
      set (for expiration: end date set and no renewal date). */
  lemma EventsForKinds(s: EventSource)
    ensures var es := EventsFor(s);
      && ((exists i :: 0 <= i < |es| && es[i].kind == NoticeDeadline) <==> s.notice.Some?)
      && ((exists i :: 0 <= i < |es| && es[i].kind == RenewalDate) <==> s.renewal.Some?)
      && ((exists i :: 0 <= i < |es| && es[i].kind == Expiration) <==> s.end.Some? && s.renewal.None?)
  {
    var es := EventsFor(s);
    EventsForParts(s);
    if s.notice.Some? { assert es[0].kind == NoticeDeadline; }
    if s.renewal.Some? { assert es[if s.notice.Some? then 1 else 0].kind == RenewalDate; }
    if s.end.Some? && s.renewal.None? { assert es[if s.notice.Some? then 1 else 0].kind == Expiration; }
  }

  /** Every event of a record carries the date of its kind, the id
      `<prefix><id>`, the record's id, the title `<name> — <label>` and the
      kind's subtitle. */
  lemma EventsForFields(s: EventSource)
    ensures var es := EventsFor(s);
      forall i :: 0 <= i < |es| ==>
        && es[i].date == (match es[i].kind
                          case NoticeDeadline => s.notice.value
                          case RenewalDate => s.renewal.value
                          case Expiration => s.end.value)
        && es[i].id == IdPrefix(es[i].kind) + IntToString(s.id)
        && es[i].contractId == s.id
        && es[i].title == s.name + TitleDash + Label(es[i].kind)
        && es[i].subtitle == Subtitle(es[i].kind)
  {
    EventsForParts(s);
  }

  /** The events of a record, kind by kind: each kind's part is empty or
      the one event made from that kind's date. */
  lemma EventsForParts(s: EventSource)
    ensures var es := EventsFor(s);
      && (s.notice.Some? ==> es[0] == MakeEvent(s.id, s.name, s.notice.value, NoticeDeadline))
      && (forall i :: 0 <= i < |es| && !(s.notice.Some? && i == 0) ==>
            if s.renewal.Some? then es[i] == MakeEvent(s.id, s.name, s.renewal.value, RenewalDate)
            else s.end.Some? && es[i] == MakeEvent(s.id, s.name, s.end.value, Expiration))
      && |es| == (if s.notice.Some? then 1 else 0) + (if s.renewal.Some? || s.end.Some? then 1 else 0)
  {
  }

  /** Position of a kind in a record's event order. */
  function Rank(k: Kind): nat {
    match k
    case NoticeDeadline => 0
    case RenewalDate => 1
    case Expiration => 2
  }

  /** Renewal and expiration events never coexist, so a record has at most
      two events, and they come in the order notice, renewal, expiration,
      each kind at most once. */
  lemma EventsForShape(s: EventSource)
    ensures var es := EventsFor(s);
      && |es| <= 2
      && !((exists i :: 0 <= i < |es| && es[i].kind == RenewalDate) && (exists i :: 0 <= i < |es| && es[i].kind == Expiration))
      && forall i, j :: 0 <= i < j < |es| ==> Rank(es[i].kind) < Rank(es[j].kind)
  {
    var es := EventsFor(s);
    var later := if s.renewal.Some? then [MakeEvent(s.id, s.name, s.renewal.value, RenewalDate)]
                 else if s.end.Some? then [MakeEvent(s.id, s.name, s.end.value, Expiration)]
                 else [];
    assert |later| <= 1 && forall i :: 0 <= i < |later| ==> later[i].kind != NoticeDeadline;
    if s.notice.Some? {
      assert es == [MakeEvent(s.id, s.name, s.notice.value, NoticeDeadline)] + later;
    } else {
      assert es == later;
    }
  }

  /** Event ids are distinct across records and kinds. */
  lemma EventIdsDistinct(a: int, ka: Kind, b: int, kb: Kind)
    requires IdPrefix(ka) + IntToString(a) == IdPrefix(kb) + IntToString(b)
    ensures a == b && ka == kb
  {
    var x := IdPrefix(ka) + IntToString(a);
    assert x[0] == IdPrefix(ka)[0];
    assert x[0] == IdPrefix(kb)[0];
    assert ka == kb;
    var p := |IdPrefix(ka)|;
    assert x[p..] == IntToString(a);
    assert (IdPrefix(kb) + IntToString(b))[p..] == IntToString(b);
    IntToStringInjective(a, b);
  }

  /** Records contribute their events in input order: the events of two
      lists of records in a row are the two lists of events in a row. */
  lemma AllEventsAppend(xs: seq<EventSource>, ys: seq<EventSource>)
    ensures AllEvents(xs + ys) == AllEvents(xs) + AllEvents(ys)
  {
    PerRecordAppend(xs, ys);
    ConcatAppend(PerRecord(xs), PerRecord(ys));
  }

  lemma PerRecordAppend(xs: seq<EventSource>, ys: seq<EventSource>)
    ensures PerRecord(xs + ys) == PerRecord(xs) + PerRecord(ys)
  {
  }

  lemma AllEventsPrefix(ss: seq<EventSource>, i: nat)
    requires i < |ss|
    ensures AllEvents(ss[..i + 1]) == AllEvents(ss[..i]) + EventsFor(ss[i])
  {
    assert ss[..i + 1] == ss[..i] + [ss[i]];
    PerRecordAppend(ss[..i], [ss[i]]);
    ConcatAppend(PerRecord(ss[..i]), [EventsFor(ss[i])]);
    assert Concat([EventsFor(ss[i])]) == EventsFor(ss[i]) by {
      assert [EventsFor(ss[i])][..0] == [];
    }
  }

  /** The number of events is the sum of the per-record numbers, at most two
      per record. */
  function EventCount(ss: seq<EventSource>): nat {
    if ss == [] then 0 else EventCount(ss[..|ss| - 1]) + |EventsFor(ss[|ss| - 1])|
  }

  lemma {:induction false} AllEventsCount(ss: seq<EventSource>)
    ensures |AllEvents(ss)| == EventCount(ss)
    ensures |AllEvents(ss)| <= 2 * |ss|
  {
    if ss != [] {
      var init := ss[..|ss| - 1];
      AllEventsCount(init);
      AllEventsPrefix(ss, |ss| - 1);
      assert ss[..|ss|] == ss;
      EventsForShape(ss[|ss| - 1]);
    }
  }
}
