/** The per-day overlay of imported events and open conflicts: src/lib/provider-external-calendars.ts. */
module CalendarOverlay {
  import opened Options

  /** An event with its calendar's name and its resource's label, or a conflict with its title. */
  datatype Span = Span(start: int, end: int, name: string, resource: Option<string>)

  datatype Tally = Tally(count: nat, names: set<string>, resources: set<string>)

  datatype Day = Day(events: Tally, conflicts: Tally)

  datatype Entry = Entry(date: int, day: Day)

  const NOTHING := Tally(0, {}, {})

  predicate Covers(s: Span, date: int) {
    s.start <= date < s.end
  }

  function Add(t: Tally, s: Span): Tally {
    Tally(t.count + 1, t.names + {s.name},
          if s.resource.Some? && s.resource.value != "" then t.resources + {s.resource.value} else t.resources)
  }

  // ----- The definition for one day

  function TallyOf(spans: seq<Span>, date: int): Tally {
    if spans == [] then NOTHING
    else
      var before, last := TallyOf(spans[..|spans| - 1], date), spans[|spans| - 1];
      if Covers(last, date) then Add(before, last) else before
  }

  function CoveringIndices(spans: seq<Span>, date: int): set<int> {
    set i | 0 <= i < |spans| && Covers(spans[i], date)
  }

  lemma CoveringLast(spans: seq<Span>, date: int)
    requires spans != []
    ensures var init, last := spans[..|spans| - 1], |spans| - 1;
            && last !in CoveringIndices(init, date)
            && CoveringIndices(spans, date)
               == if Covers(spans[last], date) then CoveringIndices(init, date) + {last}
                 else CoveringIndices(init, date)
  {
  }

  ghost predicate NamesOf(spans: seq<Span>, date: int, names: set<string>) {
    forall name :: name in names <==> exists i :: i in CoveringIndices(spans, date) && spans[i].name == name
  }

  ghost predicate ResourcesOf(spans: seq<Span>, date: int, resources: set<string>) {
    forall resource :: resource in resources
                       <==> resource != "" && exists i ::
                         i in CoveringIndices(spans, date) && spans[i].resource == Some(resource)
  }

  lemma NamesLast(spans: seq<Span>, date: int, names: set<string>)
    requires spans != [] && NamesOf(spans[..|spans| - 1], date, names)
    ensures NamesOf(spans, date, if Covers(spans[|spans| - 1], date) then names + {spans[|spans| - 1].name} else names)
  {
    CoveringLast(spans, date);
    hide Covers;
  }

  lemma ResourcesLast(spans: seq<Span>, date: int, resources: set<string>)
    requires spans != [] && ResourcesOf(spans[..|spans| - 1], date, resources)
    ensures var last := spans[|spans| - 1];
            ResourcesOf(spans, date,
              if Covers(last, date) && last.resource.Some? && last.resource.value != ""
                 then resources + {last.resource.value}
              else resources)
  {
    CoveringLast(spans, date);
    hide Covers;
  }

  /** The count of a day is the number of half-open ranges that contain it, and its names and resources are theirs. */
  lemma {:induction false} TallyMeaning(spans: seq<Span>, date: int)
    ensures TallyOf(spans, date).count == |CoveringIndices(spans, date)|
    ensures NamesOf(spans, date, TallyOf(spans, date).names)
    ensures ResourcesOf(spans, date, TallyOf(spans, date).resources)
  {
    if spans == [] {
      assert CoveringIndices(spans, date) == {};
    } else {
      hide Covers, NamesOf, ResourcesOf;
      var before := TallyOf(spans[..|spans| - 1], date);
      TallyMeaning(spans[..|spans| - 1], date);
      CoveringLast(spans, date);
      NamesLast(spans, date, before.names);
      ResourcesLast(spans, date, before.resources);
    }
  }

  function DayOf(events: seq<Span>, conflicts: seq<Span>, date: int): Day {
    Day(TallyOf(events, date), TallyOf(conflicts, date))
  }

  // ----- The program's loops

  /** byDate has exactly the days of the window with an event or a conflict, each with its tallies. */
  ghost predicate Indexed(byDate: map<int, Day>, events: seq<Span>, conflicts: seq<Span>, from: int, to: int) {
    && (forall date :: date in byDate <==>
          from <= date < to && (TallyOf(events, date).count > 0 || TallyOf(conflicts, date).count > 0))
    && (forall date :: date in byDate ==> byDate[date] == DayOf(events, conflicts, date))
  }

  function EntryOf(byDate: map<int, Day>, date: int): Day {
    if date in byDate then byDate[date] else Day(NOTHING, NOTHING)
  }

  lemma TallyLast(spans: seq<Span>, s: Span, date: int)
    ensures TallyOf(spans + [s], date) == if Covers(s, date) then Add(TallyOf(spans, date), s) else TallyOf(spans, date)
  {
    assert (spans + [s])[..|spans|] == spans;
  }

  lemma {:induction false} NoneCounted(spans: seq<Span>, date: int)
    ensures TallyOf(spans, date).count == 0 ==> TallyOf(spans, date) == NOTHING
  {
    if spans != [] {
      NoneCounted(spans[..|spans| - 1], date);
    }
  }

  /** Cut at two ends, a span gives the same tallies in the window. */
  lemma SameTallies(spans: seq<Span>, a: Span, b: Span, from: int, to: int)
    requires a.name == b.name && a.resource == b.resource
    requires forall date :: from <= date < to ==> (Covers(a, date) <==> Covers(b, date))
    ensures forall date :: from <= date < to ==> TallyOf(spans + [a], date) == TallyOf(spans + [b], date)
  {
    forall date | from <= date < to ensures TallyOf(spans + [a], date) == TallyOf(spans + [b], date) {
      TallyLast(spans, a, date);
      TallyLast(spans, b, date);
    }
  }

  /** One visit: the span reaches one day further. */
  lemma VisitEvent(byDate: map<int, Day>, events: seq<Span>, conflicts: seq<Span>, e: Span, date: int, from: int,
                   to: int)
    requires Indexed(byDate, events + [e.(end := date)], conflicts, from, to) && from <= date < to && e.start <= date
    ensures var day := EntryOf(byDate, date);
            Indexed(byDate[date := day.(events := Add(day.events, e))], events + [e.(end := date + 1)], conflicts,
              from, to)
  {
    forall d ensures TallyOf(events + [e.(end := date + 1)], d)
                     == if d == date then Add(TallyOf(events + [e.(end := date)], d), e)
                       else TallyOf(events + [e.(end := date)], d)
    {
      TallyLast(events, e.(end := date + 1), d);
      TallyLast(events, e.(end := date), d);
    }
    NoneCounted(events + [e.(end := date)], date);
    NoneCounted(conflicts, date);
  }

  lemma VisitConflict(byDate: map<int, Day>, events: seq<Span>, conflicts: seq<Span>, c: Span, date: int, from: int,
                      to: int)
    requires Indexed(byDate, events, conflicts + [c.(end := date)], from, to) && from <= date < to && c.start <= date
    ensures var day := EntryOf(byDate, date);
            Indexed(byDate[date := day.(conflicts := Add(day.conflicts, c))], events,
              conflicts + [c.(end := date + 1)], from, to)
  {
    forall d ensures TallyOf(conflicts + [c.(end := date + 1)], d)
                     == if d == date then Add(TallyOf(conflicts + [c.(end := date)], d), c)
                       else TallyOf(conflicts + [c.(end := date)], d)
    {
      TallyLast(conflicts, c.(end := date + 1), d);
      TallyLast(conflicts, c.(end := date), d);
    }
    NoneCounted(conflicts + [c.(end := date)], date);
    NoneCounted(events, date);
  }

  lemma SameIndex(byDate: map<int, Day>, events: seq<Span>, events': seq<Span>, conflicts: seq<Span>,
                  conflicts': seq<Span>, from: int, to: int)
    requires Indexed(byDate, events, conflicts, from, to)
    requires forall date :: from <= date < to ==> TallyOf(events, date) == TallyOf(events', date)
    requires forall date :: from <= date < to ==> TallyOf(conflicts, date) == TallyOf(conflicts', date)
    ensures Indexed(byDate, events', conflicts', from, to)
  {
  }

  lemma UncoveredTallies(spans: seq<Span>, s: Span, from: int, to: int)
    requires forall date :: from <= date < to ==> !Covers(s, date)
    ensures forall date :: from <= date < to ==> TallyOf(spans, date) == TallyOf(spans + [s], date)
  {
    forall date | from <= date < to ensures TallyOf(spans, date) == TallyOf(spans + [s], date) {
      TallyLast(spans, s, date);
    }
  }

  function Max(a: int, b: int): int { if a < b then b else a }

  function Min(a: int, b: int): int { if a > b then b else a }

  method IndexEvent(byDate0: map<int, Day>, e: Span, ghost events: seq<Span>, ghost conflicts: seq<Span>, from: int,
                    to: int)
    returns (byDate: map<int, Day>)
    requires Indexed(byDate0, events, conflicts, from, to)
    ensures Indexed(byDate, events + [e], conflicts, from, to)
  {
    hide Indexed, TallyOf, Add, EntryOf;
    byDate := byDate0;
    var date, end := Max(e.start, from), Min(e.end, to);
    UncoveredTallies(events, e.(end := date), from, to);
    SameIndex(byDate, events, events + [e.(end := date)], conflicts, conflicts, from, to);
    while date < end
      invariant Max(e.start, from) <= date && (date <= end || date == Max(e.start, from))
      invariant Indexed(byDate, events + [e.(end := date)], conflicts, from, to)
    {
      VisitEvent(byDate, events, conflicts, e, date, from, to);
      var day := EntryOf(byDate, date);
      byDate := byDate[date := day.(events := Add(day.events, e))];
      date := date + 1;
    }
    SameTallies(events, e.(end := date), e, from, to);
    SameIndex(byDate, events + [e.(end := date)], events + [e], conflicts, conflicts, from, to);
  }

  method IndexConflict(byDate0: map<int, Day>, c: Span, ghost events: seq<Span>, ghost conflicts: seq<Span>,
                       from: int, to: int)
    returns (byDate: map<int, Day>)
    requires Indexed(byDate0, events, conflicts, from, to)
    ensures Indexed(byDate, events, conflicts + [c], from, to)
  {
    hide Indexed, TallyOf, Add, EntryOf;
    byDate := byDate0;
    var date, end := Max(c.start, from), Min(c.end, to);
    UncoveredTallies(conflicts, c.(end := date), from, to);
    SameIndex(byDate, events, events, conflicts, conflicts + [c.(end := date)], from, to);
    while date < end
      invariant Max(c.start, from) <= date && (date <= end || date == Max(c.start, from))
      invariant Indexed(byDate, events, conflicts + [c.(end := date)], from, to)
    {
      VisitConflict(byDate, events, conflicts, c, date, from, to);
      var day := EntryOf(byDate, date);
      byDate := byDate[date := day.(conflicts := Add(day.conflicts, c))];
      date := date + 1;
    }
    SameTallies(conflicts, c.(end := date), c, from, to);
    SameIndex(byDate, events, events, conflicts + [c.(end := date)], conflicts + [c], from, to);
  }

  /** What the query selects: the spans that meet the window. */
  function Selected(spans: seq<Span>, from: int, to: int): seq<Span> {
    if spans == [] then []
    else
      var before, last := Selected(spans[..|spans| - 1], from, to), spans[|spans| - 1];
      if last.start < to && last.end > from then before + [last] else before
  }

  lemma {:induction false} SelectedMeetsWindow(spans: seq<Span>, from: int, to: int)
    ensures forall s :: s in Selected(spans, from, to) <==> s in spans && s.start < to && from < s.end
  {
    if spans != [] {
      SelectedMeetsWindow(spans[..|spans| - 1], from, to);
      assert spans == spans[..|spans| - 1] + [spans[|spans| - 1]];
    }
  }

  lemma {:induction false} SelectedTallies(spans: seq<Span>, from: int, to: int, date: int)
    requires from <= date < to
    ensures TallyOf(Selected(spans, from, to), date) == TallyOf(spans, date)
  {
    if spans != [] {
      SelectedTallies(spans[..|spans| - 1], from, to, date);
      TallyLast(Selected(spans[..|spans| - 1], from, to), spans[|spans| - 1], date);
    }
  }

  predicate Increasing(entries: seq<Entry>) {
    forall i, j :: 0 <= i < j < |entries| ==> entries[i].date < entries[j].date
  }

  predicate IsLeast(d: int, dates: set<int>) {
    d in dates && forall other :: other in dates ==> d <= other
  }

  lemma Inhabited(dates: set<int>)
    requires dates != {}
    ensures exists d :: d in dates
  {
    assert (forall d :: d !in dates) ==> dates <= {};
  }

  lemma {:induction false} LeastExists(dates: set<int>)
    requires dates != {}
    ensures exists d :: IsLeast(d, dates)
    decreases |dates|
  {
    Inhabited(dates);
    var d :| d in dates;
    var rest := dates - {d};
    assert dates == {d} + rest;
    if rest == {} {
      assert IsLeast(d, dates);
    } else {
      LeastExists(rest);
      var least :| IsLeast(least, rest);
      assert IsLeast(if d < least then d else least, {d} + rest);
    }
  }

  /** The entries in the order of their dates. */
  method SortedEntries(byDate: map<int, Day>) returns (entries: seq<Entry>)
    ensures Increasing(entries)
    ensures forall e :: e in entries <==> e.date in byDate && e.day == byDate[e.date]
  {
    entries := [];
    var rest := byDate.Keys;
    while rest != {}
      invariant rest <= byDate.Keys
      invariant forall e :: e in entries <==> e.date in byDate && e.date !in rest && e.day == byDate[e.date]
      invariant forall e, d :: e in entries && d in rest ==> e.date < d
      invariant Increasing(entries)
      decreases |rest|
    {
      LeastExists(rest);
      var d :| d in rest && IsLeast(d, rest);
      assert forall i :: 0 <= i < |entries| ==> entries[i] in entries;
      entries := entries + [Entry(d, byDate[d])];
      rest := rest - {d};
    }
  }

  /**
   The overlay of all active events and open conflicts: in increasing order exactly the days of the
   window that some event or conflict contains, each with the tallies of all that contain it.
   */
  method Overlay(events: seq<Span>, conflicts: seq<Span>, from: int, to: int) returns (entries: seq<Entry>)
    ensures Increasing(entries)
    ensures forall e :: e in entries <==>
              && from <= e.date < to && e.day == DayOf(events, conflicts, e.date)
              && (e.day.events.count > 0 || e.day.conflicts.count > 0)
  {
    var eventRows, conflictRows := Selected(events, from, to), Selected(conflicts, from, to);
    var byDate: map<int, Day> := map[];
    for i := 0 to |eventRows|
      invariant Indexed(byDate, eventRows[..i], [], from, to)
    {
      byDate := IndexEvent(byDate, eventRows[i], eventRows[..i], [], from, to);
      assert eventRows[..i] + [eventRows[i]] == eventRows[..i + 1];
    }
    assert eventRows[..|eventRows|] == eventRows;
    for i := 0 to |conflictRows|
      invariant Indexed(byDate, eventRows, conflictRows[..i], from, to)
    {
      byDate := IndexConflict(byDate, conflictRows[i], eventRows, conflictRows[..i], from, to);
      assert conflictRows[..i] + [conflictRows[i]] == conflictRows[..i + 1];
    }
    assert conflictRows[..|conflictRows|] == conflictRows;
    forall date | from <= date < to
      ensures TallyOf(eventRows, date) == TallyOf(events, date)
              && TallyOf(conflictRows, date) == TallyOf(conflicts, date)
    {
      SelectedTallies(events, from, to, date);
      SelectedTallies(conflicts, from, to, date);
    }
    SameIndex(byDate, eventRows, events, conflictRows, conflicts, from, to);
    entries := SortedEntries(byDate);
  }
}
