/** The exported calendar: src/lib/provider-external-calendars.ts. */
module IcalExport {
  import opened Options
  import opened IcalText
  import opened IcalLines

  datatype Booking = Booking(lineItem: string, booking: string, checkIn: string, checkOut: string)

  /** The exported row, the time stamp and the bookings that the query returned. */
  datatype Export = Export(title: string, product: string, variant: string, providerId: string, variantId: string,
                           stamp: string, bookings: seq<Booking>)

  datatype Name =
    | Begin | Version | ProdId | CalScale | PublishMethod | CalendarLabel | Source | Provider
    | Uid | Stamp | Start | End | Summary | Description | Status | Transparency | BookingRef | VariantRef | EndOf

  function NameText(n: Name): string {
    match n
    case Begin => "BEGIN"
    case Version => "VERSION"
    case ProdId => "PRODID"
    case CalScale => "CALSCALE"
    case PublishMethod => "METHOD"
    case CalendarLabel => "X-WR-CALNAME"
    case Source => "X-FASTT-SOURCE"
    case Provider => "X-FASTT-PROVIDER-ID"
    case Uid => "UID"
    case Stamp => "DTSTAMP"
    case Start => "DTSTART;VALUE=DATE"
    case End => "DTEND;VALUE=DATE"
    case Summary => "SUMMARY"
    case Description => "DESCRIPTION"
    case Status => "STATUS"
    case Transparency => "TRANSP"
    case BookingRef => "X-FASTT-BOOKING-ID"
    case VariantRef => "X-FASTT-VARIANT-ID"
    case EndOf => "END"
  }

  datatype Fixed =
    | VCalendar | VEvent | TwoZero | Product | Gregorian | Publish | Fastt | Confirmed | Opaque

  function FixedText(f: Fixed): string {
    match f
    case VCalendar => "VCALENDAR"
    case VEvent => "VEVENT"
    case TwoZero => "2.0"
    case Product => "-//Fastt//Provider Calendar Export//ES"
    case Gregorian => "GREGORIAN"
    case Publish => "PUBLISH"
    case Fastt => "fastt"
    case Confirmed => "CONFIRMED"
    case Opaque => "OPAQUE"
  }

  function SummaryText(): string {
    "Reservado en Fastt"
  }

  function DescriptionText(): string {
    "Bloqueo generado por Fastt. No reimportar como calendario externo."
  }

  function Prefix(n: Name): string {
    NameText(n) + ":"
  }

  function Line(n: Name, value: string): string {
    Prefix(n) + value
  }

  function FixedLine(n: Name, f: Fixed): string {
    Line(n, FixedText(f))
  }

  function TextLine(n: Name, text: string): string {
    Line(n, Escape(text))
  }

  function CalendarName(e: Export): string {
    e.title + " \U{B7} " + e.product + " \U{B7} " + e.variant
  }

  function IcalDate(date: string): string {
    Replace(date, '-', "")
  }

  function UidOf(b: Booking): string {
    "fastt-" + b.lineItem + "@calendar.fastt.local"
  }

  function Header(e: Export): seq<string> {
    [FixedLine(Begin, VCalendar), FixedLine(Version, TwoZero), FixedLine(ProdId, Product),
      FixedLine(CalScale, Gregorian),
     FixedLine(PublishMethod, Publish), TextLine(CalendarLabel, CalendarName(e)), FixedLine(Source, Fastt),
     TextLine(Provider, e.providerId)]
  }

  function TimeLines(e: Export, b: Booking): seq<string> {
    [FixedLine(Begin, VEvent), Line(Uid, UidOf(b)), Line(Stamp, e.stamp),
     Line(Start, IcalDate(b.checkIn)), Line(End, IcalDate(b.checkOut))]
  }

  function ConstantLines(): seq<string> {
    [TextLine(Summary, SummaryText()), TextLine(Description, DescriptionText()),
     FixedLine(Status, Confirmed), FixedLine(Transparency, Opaque), FixedLine(Source, Fastt)]
  }

  function ReferenceLines(e: Export, b: Booking): seq<string> {
    [TextLine(Provider, e.providerId), TextLine(BookingRef, b.booking), TextLine(VariantRef, e.variantId),
     FixedLine(EndOf, VEvent)]
  }

  function EventLines(e: Export, b: Booking): seq<string> {
    TimeLines(e, b) + ConstantLines() + ReferenceLines(e, b)
  }

  const HEADER_LINES := 8
  const EVENT_LINES := 14

  function AllEventLines(e: Export, n: nat): seq<string>
    requires n <= |e.bookings|
  {
    if n == 0 then [] else AllEventLines(e, n - 1) + EventLines(e, e.bookings[n - 1])
  }

  function ExportLines(e: Export): seq<string> {
    Header(e) + AllEventLines(e, |e.bookings|) + [FixedLine(EndOf, VCalendar)]
  }

  method ContentLines(e: Export) returns (lines: seq<string>)
    ensures lines == ExportLines(e)
  {
    hide Header, EventLines, FixedLine;
    lines := Header(e);
    for i := 0 to |e.bookings|
      invariant lines == Header(e) + AllEventLines(e, i)
    {
      lines := lines + EventLines(e, e.bookings[i]);
    }
    lines := lines + [FixedLine(EndOf, VCalendar)];
  }

  method RenderExport(e: Export) returns (file: string)
    ensures file == Render(ExportLines(e))
  {
    hide ExportLines, Kept, FoldAll, Join;
    var lines := ContentLines(e);
    var folded := FoldLines(Kept(lines));
    file := Join(folded) + CRLF;
  }

  // ----- Every line of an export can be read back

  /** A line without a line feed that does not look like a continuation. */
  predicate Plain(line: string) {
    '\n' !in line && line != "" && line[0] != ' ' && line[0] != '\t'
  }

  lemma PlainIsProper(line: string)
    requires Plain(line)
    ensures Proper(line)
  {
    forall i | 0 <= i < |line| ensures !(CRLF <= line[i..]) {
      if i + 1 < |line| {
        assert line[i + 1] in line;
        assert line[i..][1] == line[i + 1];
      }
    }
  }

  lemma NamePlain(n: Name)
    ensures Plain(NameText(n))
  {
  }

  lemma FixedHasNoNewline(f: Fixed)
    ensures '\n' !in FixedText(f)
  {
  }

  lemma LinePlain(n: Name, value: string)
    requires '\n' !in value
    ensures Plain(Line(n, value))
  {
    NamePlain(n);
    hide NameText;
    assert Line(n, value)[0] == NameText(n)[0];
  }

  lemma LinesOfPlain(n: Name, f: Fixed, text: string)
    ensures Plain(FixedLine(n, f)) && Plain(TextLine(n, text))
  {
    FixedHasNoNewline(f);
    EscapedHasNoNewline(text);
    hide FixedText, Escape, Line, Plain;
    LinePlain(n, FixedText(f));
    LinePlain(n, Escape(text));
  }

  lemma {:induction false} DateHasNoNewline(date: string)
    requires '\n' !in date
    ensures '\n' !in IcalDate(date)
  {
    if date != "" {
      DateHasNoNewline(date[1..]);
    }
  }

  /** The fields that are written without escaping: keys, dates and the time stamp. */
  predicate PlainFields(e: Export) {
    '\n' !in e.stamp
    && forall k :: 0 <= k < |e.bookings| ==>
         '\n' !in e.bookings[k].lineItem && '\n' !in e.bookings[k].checkIn && '\n' !in e.bookings[k].checkOut
  }

  lemma HeaderPlain(e: Export)
    ensures forall line :: line in Header(e) ==> Plain(line)
  {
    hide FixedLine, TextLine, CalendarName, Plain;
    forall n, f ensures Plain(FixedLine(n, f)) {
      LinesOfPlain(n, f, "");
    }
    forall n, text ensures Plain(TextLine(n, text)) {
      LinesOfPlain(n, VEvent, text);
    }
  }

  lemma TimesPlain(e: Export, b: Booking)
    requires '\n' !in e.stamp && '\n' !in b.lineItem && '\n' !in b.checkIn && '\n' !in b.checkOut
    ensures forall line :: line in TimeLines(e, b) ==> Plain(line)
  {
    UidHasNoNewline(b);
    DateHasNoNewline(b.checkIn);
    DateHasNoNewline(b.checkOut);
    hide Line, FixedLine, UidOf, IcalDate, Plain;
    LinePlain(Uid, UidOf(b));
    LinePlain(Stamp, e.stamp);
    LinePlain(Start, IcalDate(b.checkIn));
    LinePlain(End, IcalDate(b.checkOut));
    LinesOfPlain(Begin, VEvent, "");
  }

  lemma ReferencesPlain(e: Export, b: Booking)
    ensures forall line :: line in ConstantLines() + ReferenceLines(e, b) ==> Plain(line)
  {
    hide FixedLine, TextLine, SummaryText, DescriptionText, Plain;
    forall n, f ensures Plain(FixedLine(n, f)) {
      LinesOfPlain(n, f, "");
    }
    forall n, text ensures Plain(TextLine(n, text)) {
      LinesOfPlain(n, VEvent, text);
    }
  }

  lemma EventPlain(e: Export, b: Booking)
    requires '\n' !in e.stamp && '\n' !in b.lineItem && '\n' !in b.checkIn && '\n' !in b.checkOut
    ensures forall line :: line in EventLines(e, b) ==> Plain(line)
  {
    hide TimeLines, ConstantLines, ReferenceLines, Plain;
    TimesPlain(e, b);
    ReferencesPlain(e, b);
    assert EventLines(e, b) == TimeLines(e, b) + (ConstantLines() + ReferenceLines(e, b));
  }

  lemma UidHasNoNewline(b: Booking)
    requires '\n' !in b.lineItem
    ensures '\n' !in UidOf(b)
  {
  }

  lemma {:induction false} EventsPlain(e: Export, n: nat)
    requires n <= |e.bookings| && PlainFields(e)
    ensures forall line :: line in AllEventLines(e, n) ==> Plain(line)
  {
    hide Plain, EventLines;
    if n > 0 {
      EventsPlain(e, n - 1);
      EventPlain(e, e.bookings[n - 1]);
    }
  }

  lemma LinesPlain(e: Export)
    requires PlainFields(e)
    ensures forall line :: line in ExportLines(e) ==> Plain(line)
  {
    hide Plain, PlainFields, Header, AllEventLines, FixedLine;
    HeaderPlain(e);
    EventsPlain(e, |e.bookings|);
    LinesOfPlain(EndOf, VCalendar, "");
  }

  lemma {:induction false} AllKept(lines: seq<string>)
    requires "" !in lines
    ensures Kept(lines) == lines
  {
    if lines != [] {
      AllKept(lines[1..]);
    }
  }

  // ----- Main results

  /**
   Whatever the texts of an export are, the file has short physical lines only, and reading it gives
   back exactly its content lines.
   */
  lemma ExportReadBack(e: Export)
    requires PlainFields(e)
    ensures ReadLines(Render(ExportLines(e))) == ExportLines(e)
    ensures forall physical :: physical in SplitLines(Render(ExportLines(e))) ==> |physical| <= LIMIT
  {
    var lines := ExportLines(e);
    LinesPlain(e);
    forall line | line in lines ensures Proper(line) && line != "" {
      PlainIsProper(line);
    }
    AllKept(lines);
    assert lines != [];
    hide ExportLines, Render, ReadLines, SplitLines, Kept, Plain;
    ReadRendered(lines);
    PhysicalLinesShort(lines);
  }

  lemma EventLength(e: Export, b: Booking)
    ensures |EventLines(e, b)| == EVENT_LINES && EventLines(e, b)[11] == TextLine(BookingRef, b.booking)
  {
    hide FixedLine, TextLine, Line, UidOf, IcalDate, SummaryText, DescriptionText;
    assert |TimeLines(e, b)| == 5 && |ConstantLines()| == 5;
    assert ReferenceLines(e, b)[1] == TextLine(BookingRef, b.booking) && |ReferenceLines(e, b)| == 4;
    hide TimeLines, ConstantLines, ReferenceLines;
  }

  lemma {:induction false} EventLineCount(e: Export, n: nat)
    requires n <= |e.bookings|
    ensures |AllEventLines(e, n)| == EVENT_LINES * n
  {
    hide EventLines;
    if n > 0 {
      EventLength(e, e.bookings[n - 1]);
      EventLineCount(e, n - 1);
    }
  }

  lemma {:induction false} EventLineAt(e: Export, n: nat, k: nat, i: nat)
    requires k < n <= |e.bookings| && i < EVENT_LINES
    ensures |AllEventLines(e, n)| == EVENT_LINES * n && |EventLines(e, e.bookings[k])| == EVENT_LINES
    ensures AllEventLines(e, n)[EVENT_LINES * k + i] == EventLines(e, e.bookings[k])[i]
  {
    hide EventLines;
    EventLineCount(e, n);
    EventLineCount(e, n - 1);
    EventLength(e, e.bookings[k]);
    if k < n - 1 {
      EventLineAt(e, n - 1, k, i);
    }
  }

  /** The text of the line at an index, as a reader of the file sees it; None when the line has another name. */
  function ReadText(file: string, index: nat, n: Name): Option<string> {
    if index < |ReadLines(file)| && Prefix(n) <= ReadLines(file)[index]
    then Some(Unescape(ReadLines(file)[index][|Prefix(n)|..]))
    else None
  }

  lemma ReadTextLine(file: string, index: nat, n: Name, text: string)
    requires index < |ReadLines(file)| && ReadLines(file)[index] == TextLine(n, text)
    ensures ReadText(file, index, n) == Some(text)
  {
    hide ReadLines, Escape, Unescape, NameText;
    UnescapeEscaped(text);
    assert (Prefix(n) + Escape(text))[|Prefix(n)|..] == Escape(text);
  }

  /** A reader of the file gets the calendar's name as it is stored. */
  lemma NameReadBack(e: Export)
    requires PlainFields(e)
    ensures ReadText(Render(ExportLines(e)), 5, CalendarLabel) == Some(CalendarName(e))
  {
    ExportReadBack(e);
    NameLineAt(e);
    hide ReadLines, Render, ReadText, PlainFields, TextLine, CalendarName, ExportLines;
    ReadTextLine(Render(ExportLines(e)), 5, CalendarLabel, CalendarName(e));
  }

  lemma NameLineAt(e: Export)
    ensures 5 < |ExportLines(e)| && ExportLines(e)[5] == TextLine(CalendarLabel, CalendarName(e))
  {
    hide FixedLine, TextLine, CalendarName;
    assert |Header(e)| == HEADER_LINES && Header(e)[5] == TextLine(CalendarLabel, CalendarName(e));
    hide Header, AllEventLines;
  }

  /** And the id of every booking, at the place of its event. */
  lemma BookingReadBack(e: Export, k: nat)
    requires PlainFields(e) && k < |e.bookings|
    ensures ReadText(Render(ExportLines(e)), HEADER_LINES + EVENT_LINES * k + 11, BookingRef)
            == Some(e.bookings[k].booking)
  {
    hide ReadLines, SplitLines, Unfold, Render, ReadText, PlainFields, TextLine, ExportLines;
    ExportReadBack(e);
    BookingLineAt(e, k);
    var index := HEADER_LINES + EVENT_LINES * k + 11;
    assert ReadLines(Render(ExportLines(e)))[index] == TextLine(BookingRef, e.bookings[k].booking);
    ReadTextLine(Render(ExportLines(e)), index, BookingRef, e.bookings[k].booking);
  }

  lemma BookingLineAt(e: Export, k: nat)
    requires k < |e.bookings|
    ensures var at := HEADER_LINES + EVENT_LINES * k + 11;
            at < |ExportLines(e)| && ExportLines(e)[at] == TextLine(BookingRef, e.bookings[k].booking)
  {
    hide FixedLine, TextLine, Line, CalendarName;
    assert |Header(e)| == HEADER_LINES;
    hide Header, EventLines, AllEventLines;
    EventLineAt(e, |e.bookings|, k, 11);
    EventLength(e, e.bookings[k]);
  }
}
