/** `generate_ics_content`: the calendar events as an iCalendar (RFC 5545)
    document, one VEVENT per event with an optional VALARM reminder. */
module Ics {
  import opened Wrappers
  import opened Text
  import opened Dates
  import opened JsonValues
  import opened Calendar

  /** The line separator of section 3.1 of RFC 5545. */
  const Crlf: string := "\r\n"

  const MinutesPerDay: int := 1440

  /** The seven lines before the first event. */
  const Header: seq<string> := [
    "BEGIN:VCALENDAR",
    "VERSION:2.0",
    "PRODID:-//BRM//Renewal Calendar//EN",
    "CALSCALE:GREGORIAN",
    "METHOD:PUBLISH",
    "X-WR-CALNAME:BRM Contract Renewals",
    "X-WR-CALDESC:Contract renewal dates and notice deadlines"]

  const Footer: string := "END:VCALENDAR"

  const TriggerPrefix: string := "TRIGGER:-PT"

  const UidSuffix: string := "@brm-renewal-calendar"

  /** `_alarm_block(trigger_days)`: no alarm unless the number of days is
      set and positive; otherwise a display alarm that many days (written
      in minutes) before the event. */
  function AlarmBlock(triggerDays: Option<int>): (r: seq<string>)
    ensures r == [] <==> triggerDays.None? || triggerDays.value <= 0
    ensures r != [] ==> |r| == 5 && r[0] == "BEGIN:VALARM" && r[4] == "END:VALARM"
  {
    if triggerDays.None? || triggerDays.value <= 0 then []
    else [
      "BEGIN:VALARM",
      TriggerPrefix + IntToString(triggerDays.value * MinutesPerDay) + "M",
      "ACTION:DISPLAY",
      "DESCRIPTION:Reminder",
      "END:VALARM"]
  }

  /** The lead time a `TRIGGER:-PT<n>M` line states, in minutes. */
  function TriggerMinutes(line: string): Option<int> {
    if |line| > |TriggerPrefix| && line[..|TriggerPrefix|] == TriggerPrefix && line[|line| - 1] == 'M'
    then ParseInt(line[|TriggerPrefix|..|line| - 1])
    else None
  }

  /** The alarm's trigger reads back as exactly the requested number of
      whole days before the event. */
  lemma AlarmLeadTime(days: int)
    requires days > 0
    ensures var a := AlarmBlock(Some(days));
      && TriggerMinutes(a[1]) == Some(days * MinutesPerDay)
      && TriggerMinutes(a[1]).value % MinutesPerDay == 0
      && TriggerMinutes(a[1]).value / MinutesPerDay == days
  {
    var n := IntToString(days * MinutesPerDay);
    var line := TriggerPrefix + n + "M";
    assert line[..|TriggerPrefix|] == TriggerPrefix;
    assert line[|TriggerPrefix|..|line| - 1] == n;
    ParseIntOfRendering(days * MinutesPerDay);
    DivModOf(days * MinutesPerDay, MinutesPerDay, days);
  }

  /** `"1" if event.kind == "notice_deadline" else "5"`. */
  function Priority(k: Kind): string {
    if k == NoticeDeadline then "1" else "5"
  }

  /** The position of the DTSTAMP line in a block. */
  const StampLine: nat := 4

  /** The ten fixed lines of an event. */
  function EventHead(e: CalendarEvent, stamp: string): (r: seq<string>)
    requires ValidDate(e.date)
    ensures |r| == 10
  {
    [ "BEGIN:VEVENT",
      "UID:" + e.id + UidSuffix,
      "DTSTART;VALUE=DATE:" + FormatBasic(e.date),
      "DTEND;VALUE=DATE:" + FormatBasic(e.date),
      "DTSTAMP:" + stamp,
      "SUMMARY:" + e.title,
      "DESCRIPTION:" + e.subtitle,
      "PRIORITY:" + Priority(e.kind),
      "STATUS:CONFIRMED",
      "TRANSP:TRANSPARENT"]
  }

  /** The lines of one event. `stamp` is the UTC clock reading
      `YYYYMMDDTHHMMSSZ` taken while the event is written. */
  function EventBlock(e: CalendarEvent, reminderDays: Option<int>, stamp: string): (r: seq<string>)
    requires ValidDate(e.date)
    ensures |r| == 11 + |AlarmBlock(reminderDays)|
  {
    EventHead(e, stamp) + AlarmBlock(reminderDays) + ["END:VEVENT"]
  }

  /** An event's dates come from `Date` columns, so they are calendar dates. */
  predicate EventsDated(events: seq<CalendarEvent>) {
    forall i :: 0 <= i < |events| ==> ValidDate(events[i].date)
  }

  function Blocks(events: seq<CalendarEvent>, reminderDays: Option<int>, stamps: seq<string>): (r: seq<seq<string>>)
    requires EventsDated(events) && |stamps| == |events|
    ensures |r| == |events|
    ensures forall i :: 0 <= i < |events| ==> r[i] == EventBlock(events[i], reminderDays, stamps[i])
  {
    seq(|events|, i requires 0 <= i < |events| => EventBlock(events[i], reminderDays, stamps[i]))
  }

  /** The document's lines: header, the events in order, footer. */
  function IcsLines(events: seq<CalendarEvent>, reminderDays: Option<int>, stamps: seq<string>): seq<string>
    requires EventsDated(events) && |stamps| == |events|
  {
    Header + Concat(Blocks(events, reminderDays, stamps)) + [Footer]
  }

  function IcsContent(events: seq<CalendarEvent>, reminderDays: Option<int>, stamps: seq<string>): string
    requires EventsDated(events) && |stamps| == |events|
  {
    Join(Crlf, IcsLines(events, reminderDays, stamps))
  }

  /** `generate_ics_content(events, reminder_days)`, with the clock reading
      of each event's DTSTAMP passed in as `stamps`. */
  method GenerateIcsContent(events: seq<CalendarEvent>, reminderDays: Option<int>, stamps: seq<string>) returns (content: string)
    requires EventsDated(events) && |stamps| == |events|
    ensures content == IcsContent(events, reminderDays, stamps)
  {
    var lines := AppendEvents(Header, events, reminderDays, stamps);
    lines := lines + [Footer];
    content := Join(Crlf, lines);
  }

  /** The loop over the events. */
  method AppendEvents(before: seq<string>, events: seq<CalendarEvent>, reminderDays: Option<int>, stamps: seq<string>) returns (lines: seq<string>)
    requires EventsDated(events) && |stamps| == |events|
    ensures lines == before + Concat(Blocks(events, reminderDays, stamps))
  {
    var blocks := Blocks(events, reminderDays, stamps);
    lines := before;
    for i := 0 to |events|
      invariant lines == before + Concat(blocks[..i])
    {
      var next := AppendBlock(lines, events[i], reminderDays, stamps[i]);
      ConcatStep(before, blocks, i, lines, next);
      lines := next;
    }
    assert blocks[..|events|] == blocks;
  }

  /** One pass of the loop: the event's lines, its alarm and END:VEVENT. */
  method AppendBlock(before: seq<string>, e: CalendarEvent, reminderDays: Option<int>, stamp: string) returns (lines: seq<string>)
    requires ValidDate(e.date)
    ensures lines == before + EventBlock(e, reminderDays, stamp)
  {
    var dateText := FormatBasic(e.date);
    var block := [
      "BEGIN:VEVENT",
      "UID:" + e.id + UidSuffix,
      "DTSTART;VALUE=DATE:" + dateText,
      "DTEND;VALUE=DATE:" + dateText,
      "DTSTAMP:" + stamp,
      "SUMMARY:" + e.title,
      "DESCRIPTION:" + e.subtitle,
      "PRIORITY:" + Priority(e.kind),
      "STATUS:CONFIRMED",
      "TRANSP:TRANSPARENT"];
    block := block + AlarmBlock(reminderDays);
    block := block + ["END:VEVENT"];
    lines := before + block;
  }

  lemma ConcatStep<T>(before: seq<T>, xss: seq<seq<T>>, i: nat, prefix: seq<T>, next: seq<T>)
    requires i < |xss|
    requires prefix == before + Concat(xss[..i]) && next == prefix + xss[i]
    ensures next == before + Concat(xss[..i + 1])
  {
    assert xss[..i + 1][..i] == xss[..i];
  }

  lemma MulMonotone(a: int, c: int, b: int)
    requires a <= c && b > 0
    ensures a * b <= c * b
  {
    assert c * b - a * b == (c - a) * b;
  }

  lemma DivModOf(x: int, b: int, q: int)
    requires b > 0 && q * b <= x < q * b + b
    ensures x / b == q && x % b == x - q * b
  {
    var d := x / b;
    assert d * b + x % b == x && 0 <= x % b < b;
    if d > q {
      MulMonotone(q + 1, d, b);
    } else if d < q {
      MulMonotone(d + 1, q, b);
    }
  }

  /** Where block `k` starts when every block has `b` items: `k * b`,
      counted block by block. */
  function Stride(k: nat, b: nat): nat {
    if k == 0 then 0 else Stride(k - 1, b) + b
  }

  lemma {:induction false} StrideIsProduct(k: nat, b: nat)
    ensures Stride(k, b) == k * b
  {
    if k > 0 {
      StrideIsProduct(k - 1, b);
      assert (k - 1) * b + b == k * b;
    }
  }

  lemma {:induction false} StrideMonotone(k: nat, n: nat, b: nat)
    requires k < n
    ensures Stride(k, b) + b <= Stride(n, b)
    decreases n
  {
    if k < n - 1 {
      StrideMonotone(k, n - 1, b);
    }
  }

  /** Every position below `Stride(n, b)` lies in exactly one block. */
  lemma {:induction false} Locate(n: nat, b: nat, x: nat) returns (k: nat, j: nat)
    requires x < Stride(n, b)
    ensures k < n && j < b && x == Stride(k, b) + j
  {
    if x < Stride(n - 1, b) {
      k, j := Locate(n - 1, b, x);
    } else {
      k, j := n - 1, x - Stride(n - 1, b);
    }
  }

  lemma {:induction false} ConcatUniformLength<T>(xss: seq<seq<T>>, b: nat)
    requires forall k :: 0 <= k < |xss| ==> |xss[k]| == b
    ensures |Concat(xss)| == Stride(|xss|, b)
  {
    if xss != [] {
      ConcatUniformLength(xss[..|xss| - 1], b);
    }
  }

  /** Blocks of one length `b` laid end to end: block `k` is the slice from
      `Stride(k, b)` to `Stride(k + 1, b)` of the result. */
  lemma {:induction false} ConcatBlockAt<T>(xss: seq<seq<T>>, b: nat, k: nat)
    requires forall k :: 0 <= k < |xss| ==> |xss[k]| == b
    requires k < |xss|
    ensures Stride(k + 1, b) <= |Concat(xss)|
    ensures Concat(xss)[Stride(k, b)..Stride(k + 1, b)] == xss[k]
  {
    var n := |xss|;
    var init := xss[..n - 1];
    ConcatUniformLength(init, b);
    var c := Concat(init);
    assert Concat(xss) == c + xss[n - 1];
    if k < n - 1 {
      ConcatBlockAt(init, b, k);
      StrideMonotone(k, n - 1, b);
      assert (c + xss[n - 1])[Stride(k, b)..Stride(k + 1, b)] == c[Stride(k, b)..Stride(k + 1, b)];
      assert init[k] == xss[k];
    } else {
      assert (c + xss[n - 1])[|c|..|c| + b] == xss[n - 1];
    }
  }

  /** The same, after a header and before a closing item. */
  lemma LayoutBlockAt<T>(head: seq<T>, xss: seq<seq<T>>, foot: T, b: nat, k: nat)
    requires forall k :: 0 <= k < |xss| ==> |xss[k]| == b
    requires k < |xss|
    ensures var l := head + Concat(xss) + [foot];
      && |head| + Stride(k + 1, b) < |l|
      && l[|head| + Stride(k, b)..|head| + Stride(k + 1, b)] == xss[k]
  {
    ConcatUniformLength(xss, b);
    ConcatBlockAt(xss, b, k);
    var c := Concat(xss);
    var l := head + c + [foot];
    assert l[|head|..|head| + |c|] == c;
    assert l[|head| + Stride(k, b)..|head| + Stride(k + 1, b)] == c[Stride(k, b)..Stride(k + 1, b)];
  }

  /** The document is the seven header lines, a block of `b` lines per event
      (11, plus 5 when an alarm is requested), and the footer. */
  lemma IcsFrame(events: seq<CalendarEvent>, reminderDays: Option<int>, stamps: seq<string>)
    requires EventsDated(events) && |stamps| == |events|
    ensures var lines := IcsLines(events, reminderDays, stamps);
            var b := 11 + |AlarmBlock(reminderDays)|;
      && |lines| == 8 + |events| * b
      && lines[..7] == Header
      && lines[|lines| - 1] == Footer
  {
    var b := 11 + |AlarmBlock(reminderDays)|;
    var blocks := Blocks(events, reminderDays, stamps);
    ConcatUniformLength(blocks, b);
    StrideIsProduct(|events|, b);
    var lines := IcsLines(events, reminderDays, stamps);
    assert lines == Header + Concat(blocks) + [Footer];
  }

  /** Event `k` occupies the `b` lines from line `7 + k * b`, in input order. */
  lemma EventAt(events: seq<CalendarEvent>, reminderDays: Option<int>, stamps: seq<string>, k: nat)
    requires EventsDated(events) && |stamps| == |events| && k < |events|
    ensures var lines := IcsLines(events, reminderDays, stamps);
            var b := 11 + |AlarmBlock(reminderDays)|;
      && 7 + k * b + b < |lines|
      && lines[7 + k * b .. 7 + k * b + b] == EventBlock(events[k], reminderDays, stamps[k])
  {
    var blocks := Blocks(events, reminderDays, stamps);
    BlocksUniform(events, reminderDays, stamps);
    BlockAtProduct(Header, blocks, Footer, 11 + |AlarmBlock(reminderDays)|, k);
  }

  lemma BlocksUniform(events: seq<CalendarEvent>, reminderDays: Option<int>, stamps: seq<string>)
    requires EventsDated(events) && |stamps| == |events|
    ensures var blocks := Blocks(events, reminderDays, stamps);
      forall k :: 0 <= k < |blocks| ==> |blocks[k]| == 11 + |AlarmBlock(reminderDays)|
  {
  }

  /** `LayoutBlockAt` with the offset written as a product. */
  lemma BlockAtProduct<T>(head: seq<T>, xss: seq<seq<T>>, foot: T, b: nat, k: nat)
    requires forall k :: 0 <= k < |xss| ==> |xss[k]| == b
    requires k < |xss|
    ensures var l := head + Concat(xss) + [foot];
      && |head| + k * b + b < |l|
      && l[|head| + k * b .. |head| + k * b + b] == xss[k]
  {
    LayoutBlockAt(head, xss, foot, b, k);
    StrideIsProduct(k, b);
    assert Stride(k + 1, b) == Stride(k, b) + b;
  }

  /** What an event's block says: its UID is the event id, DTSTART and DTEND
      both carry the event date as `YYYYMMDD` (which reads back as that
      date), priority 1 marks exactly the notice deadlines, and the alarm
      lines follow the fixed ones. */
  lemma EventBlockLines(e: CalendarEvent, reminderDays: Option<int>, stamp: string)
    requires ValidDate(e.date)
    ensures var r := EventBlock(e, reminderDays, stamp);
      && r[0] == "BEGIN:VEVENT" && r[|r| - 1] == "END:VEVENT"
      && r[1] == "UID:" + e.id + UidSuffix
      && r[2][..19] == "DTSTART;VALUE=DATE:" && ParseBasic(r[2][19..]) == Some(e.date)
      && r[3][..17] == "DTEND;VALUE=DATE:" && ParseBasic(r[3][17..]) == Some(e.date)
      && r[StampLine] == "DTSTAMP:" + stamp
      && (r[7] == "PRIORITY:1" <==> e.kind == NoticeDeadline)
      && r[10..10 + |AlarmBlock(reminderDays)|] == AlarmBlock(reminderDays)
  {
    var r := EventBlock(e, reminderDays, stamp);
    var d := FormatBasic(e.date);
    assert r[2] == "DTSTART;VALUE=DATE:" + d;
    assert r[2][19..] == d;
    assert r[3][17..] == d;
    BasicRoundTrip(e.date);
    assert r[7] == "PRIORITY:" + Priority(e.kind);
    if r[7] == "PRIORITY:1" {
      assert r[7][9] == '1';
    }
  }

  /** UIDs of events with distinct ids are distinct (section 3.8.4.7 of
      RFC 5545 asks for globally unique UIDs). */
  lemma UidsDistinct(a: CalendarEvent, b: CalendarEvent)
    requires "UID:" + a.id + UidSuffix == "UID:" + b.id + UidSuffix
    ensures a.id == b.id
  {
    var x := "UID:" + a.id + UidSuffix;
    assert x[4..|x| - |UidSuffix|] == a.id;
    assert ("UID:" + b.id + UidSuffix)[4..|x| - |UidSuffix|] == b.id;
  }

  /** The clock readings only reach the DTSTAMP lines: two documents of the
      same events written at different times differ at most at line
      `StampLine` of some block. */
  lemma StampsOnlyInDtstamp(events: seq<CalendarEvent>, reminderDays: Option<int>, s1: seq<string>, s2: seq<string>)
    requires EventsDated(events) && |s1| == |events| && |s2| == |events|
    ensures var l1 := IcsLines(events, reminderDays, s1);
            var l2 := IcsLines(events, reminderDays, s2);
            var b := 11 + |AlarmBlock(reminderDays)|;
      && |l1| == |l2|
      && forall i :: 0 <= i < |l1| && l1[i] != l2[i] ==>
           exists k :: 0 <= k < |events| && i == 7 + k * b + StampLine
  {
    var b := 11 + |AlarmBlock(reminderDays)|;
    var blocks1 := Blocks(events, reminderDays, s1);
    var blocks2 := Blocks(events, reminderDays, s2);
    BlocksUniform(events, reminderDays, s1);
    BlocksUniform(events, reminderDays, s2);
    forall k, j | 0 <= k < |events| && 0 <= j < b && j != StampLine
      ensures blocks1[k][j] == blocks2[k][j]
    {
      BlockStampOnly(events[k], reminderDays, s1[k], s2[k], j);
    }
    IcsFrame(events, reminderDays, s1);
    IcsFrame(events, reminderDays, s2);
    var l1 := Header + Concat(blocks1) + [Footer];
    forall i | 0 <= i < |l1|
      ensures var l2 := Header + Concat(blocks2) + [Footer];
        i < |l2| && (l1[i] == l2[i] || exists k :: 0 <= k < |events| && i == 7 + k * b + StampLine)
    {
      LayoutsDiffer(Header, blocks1, blocks2, Footer, b, StampLine, i);
    }
  }

  /** Two layouts whose blocks agree except at offset `s` of each block can
      differ only at those offsets. */
  lemma LayoutsDiffer<T>(head: seq<T>, xss1: seq<seq<T>>, xss2: seq<seq<T>>, foot: T, b: nat, s: nat, i: nat)
    requires |xss1| == |xss2|
    requires forall k :: 0 <= k < |xss1| ==> |xss1[k]| == b && |xss2[k]| == b
    requires forall k, j :: 0 <= k < |xss1| && 0 <= j < b && j != s ==> xss1[k][j] == xss2[k][j]
    requires i < |head + Concat(xss1) + [foot]|
    ensures var l1 := head + Concat(xss1) + [foot];
            var l2 := head + Concat(xss2) + [foot];
      && i < |l2|
      && (l1[i] == l2[i] || exists k :: 0 <= k < |xss1| && i == |head| + k * b + s)
  {
    var n := |xss1|;
    ConcatUniformLength(xss1, b);
    ConcatUniformLength(xss2, b);
    var l1 := head + Concat(xss1) + [foot];
    var l2 := head + Concat(xss2) + [foot];
    if i < |head| {
      assert l1[i] == head[i] == l2[i];
    } else if i < |head| + Stride(n, b) {
      var k, j := Locate(n, b, i - |head|);
      StrideIsProduct(k, b);
      BlockAtProduct(head, xss1, foot, b, k);
      BlockAtProduct(head, xss2, foot, b, k);
      assert l1[i] == l1[|head| + k * b .. |head| + k * b + b][j];
      assert l2[i] == l2[|head| + k * b .. |head| + k * b + b][j];
      if j == s {
        assert i == |head| + k * b + s;
      }
    } else {
      assert l1[i] == foot == l2[i];
    }
  }

  /** Within a block, only the DTSTAMP line depends on the clock. */
  lemma BlockStampOnly(e: CalendarEvent, reminderDays: Option<int>, s1: string, s2: string, j: nat)
    requires ValidDate(e.date) && j < 11 + |AlarmBlock(reminderDays)| && j != StampLine
    ensures EventBlock(e, reminderDays, s1)[j] == EventBlock(e, reminderDays, s2)[j]
  {
    var a := AlarmBlock(reminderDays);
    if j < 10 {
      assert EventBlock(e, reminderDays, s1)[j] == EventHead(e, s1)[j];
      assert EventBlock(e, reminderDays, s2)[j] == EventHead(e, s2)[j];
    }
  }

  /** The text opens with the header's first line and a CRLF and ends with
      `END:VCALENDAR` and no line break after it. */
  lemma ContentEnds(events: seq<CalendarEvent>, reminderDays: Option<int>, stamps: seq<string>)
    requires EventsDated(events) && |stamps| == |events|
    ensures var c := IcsContent(events, reminderDays, stamps);
      && |c| >= |Header[0]| + 2 + |Footer|
      && c[..|Header[0]| + 2] == Header[0] + Crlf
      && c[|c| - |Footer|..] == Footer
      && c[|c| - |Footer| - 2..|c| - |Footer|] == Crlf
  {
    var lines := IcsLines(events, reminderDays, stamps);
    var n := |lines|;
    assert n >= 8;
    var init := lines[..n - 1];
    assert Join(Crlf, lines) == Join(Crlf, init) + Crlf + Footer;
    assert init[0] == Header[0];
    JoinFirst(Crlf, init);
  }

  /** A joined text of two or more parts starts with the first part and a
      separator. */
  lemma {:induction false} JoinFirst(sep: string, xs: seq<string>)
    requires |xs| >= 2
    ensures |Join(sep, xs)| >= |xs[0]| + |sep|
    ensures Join(sep, xs)[..|xs[0]| + |sep|] == xs[0] + sep
  {
    var init := xs[..|xs| - 1];
    if |xs| == 2 {
      assert init == [xs[0]];
    } else {
      JoinFirst(sep, init);
    }
  }
}
