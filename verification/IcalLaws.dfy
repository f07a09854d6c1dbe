/** The exported file as a calendar reader sees it, line by line and in literal text. */
module IcalLaws {
  import opened Options
  import opened IcalText
  import opened IcalLines
  import opened IcalExport

  // ----- Escaping and folding

  /** In escaped text every comma and every semicolon follows a backslash. */
  ghost predicate Guarded(s: string) {
    forall i :: 0 <= i < |s| && (s[i] == ',' || s[i] == ';') ==> i > 0 && s[i - 1] == '\\'
  }

  lemma {:induction false} EscapedOnceIsGuarded(s: string)
    ensures Guarded(EscapeOnce(s))
  {
    if s != "" {
      EscapedOnceIsGuarded(s[1..]);
      GuardedAppend(EscapeUnit(s[0]), EscapeOnce(s[1..]));
    }
  }

  lemma GuardedAppend(a: string, b: string)
    requires Guarded(a) && Guarded(b)
    ensures Guarded(a + b)
  {
    var s := a + b;
    forall i | 0 <= i < |s| && (s[i] == ',' || s[i] == ';') ensures i > 0 && s[i - 1] == '\\' {
      if i >= |a| {
        assert s[i] == b[i - |a|] && s[i - 1] == b[i - |a| - 1];
      }
    }
  }

  /** Escaped text is a TEXT value: no line feed, and no separator that is not guarded. */
  lemma EscapedIsText(s: string)
    ensures '\n' !in Escape(s) && Guarded(Escape(s))
  {
    EscapedHasNoNewline(s);
    EscapeIsOnePass(s);
    EscapedOnceIsGuarded(s);
  }

  /** A line of at most 72 code units is not folded; of a longer one every part but the last has exactly 72. */
  lemma {:induction false} FoldsAtLimit(line: string)
    ensures |line| <= 72 ==> Fold(line) == line
    ensures forall i :: 0 <= i < |Chunks(line)| - 1 ==> |Chunks(line)[i]| == 72
    ensures |Chunks(line)[|Chunks(line)| - 1]| <= 72
    ensures forall i :: 0 < i < |Chunks(line)| ==> Chunks(line)[i] != "" && Chunks(line)[i][0] == ' '
    decreases |line|
  {
    if |line| > LIMIT {
      var next := " " + line[LIMIT..];
      FoldsAtLimit(next);
      assert Chunks(line) == [line[..LIMIT]] + Chunks(next);
      assert Chunks(next)[0][0] == ' ';
    }
  }

  // ----- The literal lines

  lemma HeaderNames()
    ensures Prefix(Begin) == "BEGIN:" && Prefix(Version) == "VERSION:" && Prefix(ProdId) == "PRODID:"
    ensures Prefix(CalScale) == "CALSCALE:" && Prefix(PublishMethod) == "METHOD:"
  {
  }

  lemma OwnNames()
    ensures Prefix(CalendarLabel) == "X-WR-CALNAME:" && Prefix(Source) == "X-FASTT-SOURCE:"
    ensures Prefix(Provider) == "X-FASTT-PROVIDER-ID:"
  {
  }

  lemma TimeNames()
    ensures Prefix(Uid) == "UID:" && Prefix(Stamp) == "DTSTAMP:" && Prefix(Start) == "DTSTART;VALUE=DATE:"
    ensures Prefix(End) == "DTEND;VALUE=DATE:"
  {
  }

  lemma ConstantNames()
    ensures Prefix(Summary) == "SUMMARY:" && Prefix(Description) == "DESCRIPTION:" && Prefix(Status) == "STATUS:"
    ensures Prefix(Transparency) == "TRANSP:"
  {
  }

  lemma ReferenceNames()
    ensures Prefix(BookingRef) == "X-FASTT-BOOKING-ID:" && Prefix(VariantRef) == "X-FASTT-VARIANT-ID:"
    ensures Prefix(EndOf) == "END:"
  {
  }

  lemma BracketLines()
    ensures FixedLine(Begin, VCalendar) == "BEGIN:VCALENDAR" && FixedLine(EndOf, VCalendar) == "END:VCALENDAR"
    ensures FixedLine(Begin, VEvent) == "BEGIN:VEVENT" && FixedLine(EndOf, VEvent) == "END:VEVENT"
  {
    HeaderNames();
    ReferenceNames();
    hide Prefix;
  }

  lemma VersionLines()
    ensures FixedLine(Version, TwoZero) == "VERSION:2.0" && FixedLine(CalScale, Gregorian) == "CALSCALE:GREGORIAN"
    ensures FixedLine(PublishMethod, Publish) == "METHOD:PUBLISH"
  {
    HeaderNames();
    hide Prefix;
  }

  lemma ProductLine()
    ensures FixedLine(ProdId, Product) == "PRODID:-//Fastt//Provider Calendar Export//ES"
  {
    HeaderNames();
    hide Prefix;
  }

  lemma StateLines()
    ensures FixedLine(Status, Confirmed) == "STATUS:CONFIRMED" && FixedLine(Transparency, Opaque) == "TRANSP:OPAQUE"
    ensures FixedLine(Source, Fastt) == "X-FASTT-SOURCE:fastt"
  {
    ConstantNames();
    OwnNames();
    hide Prefix;
  }

  lemma SummaryLine()
    ensures TextLine(Summary, SummaryText()) == "SUMMARY:" + Escape("Reservado en Fastt")
  {
    ConstantNames();
    hide Prefix, Escape;
  }

  lemma DescriptionLine()
    ensures TextLine(Description, DescriptionText())
            == "DESCRIPTION:" + Escape("Bloqueo generado por Fastt. No reimportar como calendario externo.")
  {
    ConstantNames();
    hide Prefix, Escape;
  }

  // ----- The literal file

  function WithoutHyphens(date: string): string {
    if date == "" then "" else (if date[0] == '-' then "" else [date[0]]) + WithoutHyphens(date[1..])
  }

  function HeaderText(e: Export): seq<string> {
    ["BEGIN:VCALENDAR", "VERSION:2.0", "PRODID:-//Fastt//Provider Calendar Export//ES", "CALSCALE:GREGORIAN",
     "METHOD:PUBLISH", "X-WR-CALNAME:" + Escape(e.title + " \U{B7} " + e.product + " \U{B7} " + e.variant),
     "X-FASTT-SOURCE:fastt", "X-FASTT-PROVIDER-ID:" + Escape(e.providerId)]
  }

  function TimeText(e: Export, b: Booking): seq<string> {
    ["BEGIN:VEVENT", "UID:fastt-" + b.lineItem + "@calendar.fastt.local", "DTSTAMP:" + e.stamp,
     "DTSTART;VALUE=DATE:" + WithoutHyphens(b.checkIn), "DTEND;VALUE=DATE:" + WithoutHyphens(b.checkOut)]
  }

  function ConstantText(): seq<string> {
    ["SUMMARY:" + Escape("Reservado en Fastt"),
     "DESCRIPTION:" + Escape("Bloqueo generado por Fastt. No reimportar como calendario externo."),
     "STATUS:CONFIRMED", "TRANSP:OPAQUE", "X-FASTT-SOURCE:fastt"]
  }

  function ReferenceText(e: Export, b: Booking): seq<string> {
    ["X-FASTT-PROVIDER-ID:" + Escape(e.providerId), "X-FASTT-BOOKING-ID:" + Escape(b.booking),
     "X-FASTT-VARIANT-ID:" + Escape(e.variantId), "END:VEVENT"]
  }

  /** One event for each booking, in their order. */
  function EventsText(e: Export, bookings: seq<Booking>): seq<string> {
    if bookings == [] then []
    else TimeText(e, bookings[0]) + ConstantText() + ReferenceText(e, bookings[0]) + EventsText(e, bookings[1..])
  }

  lemma {:induction false} DateIs(date: string)
    ensures IcalDate(date) == WithoutHyphens(date)
  {
    if date != "" {
      DateIs(date[1..]);
    }
  }

  lemma {:induction false} HyphensAppend(a: string, b: string)
    ensures WithoutHyphens(a + b) == WithoutHyphens(a) + WithoutHyphens(b)
  {
    if a == "" {
      assert a + b == b;
    } else {
      HyphensAppend(a[1..], b);
      assert (a + b)[1..] == a[1..] + b;
      AssociateThree(if a[0] == '-' then "" else [a[0]], WithoutHyphens(a[1..]), WithoutHyphens(b));
    }
  }

  lemma AssociateThree(a: string, b: string, c: string)
    ensures a + (b + c) == a + b + c
  {
  }

  lemma {:induction false} NoHyphens(s: string)
    requires '-' !in s
    ensures WithoutHyphens(s) == s
  {
    if s != "" {
      NoHyphens(s[1..]);
    }
  }

  /** Without its hyphens a date is its year, month and day. */
  lemma DateParts(year: string, month: string, day: string)
    requires '-' !in year && '-' !in month && '-' !in day
    ensures WithoutHyphens(year + ("-" + (month + ("-" + day)))) == year + (month + day)
  {
    NoHyphens(year);
    NoHyphens(month);
    NoHyphens(day);
    OneHyphen(day);
    OneHyphen(month + ("-" + day));
    hide WithoutHyphens;
    HyphensAppend(month, "-" + day);
    HyphensAppend(year, "-" + (month + ("-" + day)));
  }

  lemma OneHyphen(s: string)
    ensures WithoutHyphens("-" + s) == WithoutHyphens(s)
  {
    assert ("-" + s)[1..] == s;
    assert "" + WithoutHyphens(s) == WithoutHyphens(s);
  }

  lemma HeaderIs(e: Export)
    ensures Header(e) == HeaderText(e)
  {
    OwnNames();
    BracketLines();
    VersionLines();
    ProductLine();
    StateLines();
    hide FixedLine, Escape, Prefix;
  }

  lemma TimesAre(e: Export, b: Booking)
    ensures TimeLines(e, b) == TimeText(e, b)
  {
    TimeNames();
    BracketLines();
    UidLine(b);
    DateIs(b.checkIn);
    DateIs(b.checkOut);
    hide FixedLine, Prefix, IcalDate, WithoutHyphens, UidOf;
  }

  lemma UidLine(b: Booking)
    ensures Line(Uid, UidOf(b)) == "UID:fastt-" + b.lineItem + "@calendar.fastt.local"
  {
    TimeNames();
    hide Prefix;
    assert "UID:" + "fastt-" == "UID:fastt-";
    assert "UID:" + ("fastt-" + b.lineItem + "@calendar.fastt.local")
        == "UID:" + "fastt-" + b.lineItem + "@calendar.fastt.local";
  }

  lemma ConstantsAre()
    ensures ConstantLines() == ConstantText()
  {
    SummaryLine();
    DescriptionLine();
    StateLines();
    hide FixedLine, TextLine, Escape, SummaryText, DescriptionText;
  }

  lemma ReferencesAre(e: Export, b: Booking)
    ensures ReferenceLines(e, b) == ReferenceText(e, b)
  {
    OwnNames();
    ReferenceNames();
    BracketLines();
    hide FixedLine, Escape, Prefix;
  }

  lemma {:induction false} EventsAre(e: Export, n: nat)
    requires n <= |e.bookings|
    ensures AllEventLines(e, n) + EventsText(e, e.bookings[n..]) == EventsText(e, e.bookings)
  {
    hide TimeLines, ConstantLines, ReferenceLines, TimeText, ConstantText, ReferenceText;
    if n == 0 {
      assert e.bookings[0..] == e.bookings;
    } else {
      var b := e.bookings[n - 1];
      EventsAre(e, n - 1);
      TimesAre(e, b);
      ConstantsAre();
      ReferencesAre(e, b);
      assert e.bookings[n - 1..][0] == b && e.bookings[n - 1..][1..] == e.bookings[n..];
      hide AllEventLines;
      var before, event, rest := AllEventLines(e, n - 1), EventLines(e, b), EventsText(e, e.bookings[n..]);
      AllEventsNext(e, n);
      assert EventsText(e, e.bookings[n - 1..]) == event + rest;
      assert before + event + rest == before + (event + rest);
    }
  }

  lemma AllEventsNext(e: Export, n: nat)
    requires 0 < n <= |e.bookings|
    ensures AllEventLines(e, n) == AllEventLines(e, n - 1) + EventLines(e, e.bookings[n - 1])
  {
    hide EventLines;
  }

  lemma AllEventsAre(e: Export)
    ensures AllEventLines(e, |e.bookings|) == EventsText(e, e.bookings)
  {
    hide AllEventLines, EventsText;
    var none := e.bookings[|e.bookings|..];
    assert none == [];
    EventsAre(e, |e.bookings|);
    NoEvents(e);
    NothingAdded(AllEventLines(e, |e.bookings|), EventsText(e, none));
  }

  lemma NothingAdded(lines: seq<string>, more: seq<string>)
    requires more == []
    ensures lines + more == lines
  {
  }

  lemma NoEvents(e: Export)
    ensures EventsText(e, []) == []
  {
  }

  lemma LinesAre(e: Export)
    ensures ExportLines(e) == HeaderText(e) + EventsText(e, e.bookings) + ["END:VCALENDAR"]
  {
    hide HeaderText, EventsText, FixedLine, Header, AllEventLines;
    HeaderIs(e);
    BracketLines();
    AllEventsAre(e);
  }

  /** For every export, a reader of the file gets literally these content lines. */
  lemma FileReadsAs(e: Export)
    requires PlainFields(e)
    ensures ReadLines(Render(ExportLines(e))) == HeaderText(e) + EventsText(e, e.bookings) + ["END:VCALENDAR"]
  {
    hide ReadLines, Render, PlainFields, HeaderText, EventsText, ExportLines;
    ExportReadBack(e);
    LinesAre(e);
  }
}
