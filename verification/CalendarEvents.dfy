/** Replacement and revocation of imported events: src/lib/provider-external-calendars.ts. Dates are day numbers. */
module CalendarEvents {
  import opened Options

  datatype EventId = EventId(calendar: string, sourceKey: string)

  /** An event occupies the dates from start up to, but not including, end. */
  datatype Event = Event(start: int, end: int, active: bool)

  type Events = map<EventId, Event>

  datatype Parsed = Parsed(sourceKey: string, start: int, end: int)

  datatype Range = Range(from: int, to: int)

  // ----- The recomputed range

  function MinFrom(ranges: seq<Range>): int
    requires ranges != []
  {
    var last := ranges[|ranges| - 1].from;
    if |ranges| == 1 then last
    else
      var before := MinFrom(ranges[..|ranges| - 1]);
      if last < before then last else before
  }

  function MaxTo(ranges: seq<Range>): int
    requires ranges != []
  {
    var last := ranges[|ranges| - 1].to;
    if |ranges| == 1 then last
    else
      var before := MaxTo(ranges[..|ranges| - 1]);
      if last > before then last else before
  }

  function RangeFromEvents(ranges: seq<Range>): Option<Range> {
    if ranges == [] then None else Some(Range(MinFrom(ranges), MaxTo(ranges)))
  }

  /** The range whose availability is recomputed, if any. */
  function Recomputed(ranges: seq<Range>): Option<Range> {
    var range := RangeFromEvents(ranges);
    if range.None? || range.value.to <= range.value.from then None else range
  }

  lemma {:induction false} ExtremesReached(ranges: seq<Range>)
    requires ranges != []
    ensures forall r :: r in ranges ==> MinFrom(ranges) <= r.from && r.to <= MaxTo(ranges)
    ensures exists r :: r in ranges && r.from == MinFrom(ranges)
    ensures exists r :: r in ranges && r.to == MaxTo(ranges)
  {
    var init, last := ranges[..|ranges| - 1], ranges[|ranges| - 1];
    assert ranges == init + [last];
    if init == [] {
      assert last in ranges;
    } else {
      ExtremesReached(init);
    }
  }

  predicate Contains(range: Option<Range>, date: int) {
    range.Some? && range.value.from <= date < range.value.to
  }

  /** The recomputed range contains every date of every event. */
  lemma RecomputedContains(ranges: seq<Range>, r: Range, date: int)
    requires r in ranges && r.from <= date < r.to
    ensures Contains(Recomputed(ranges), date)
  {
    ExtremesReached(ranges);
  }

  /**
   There is a range exactly when some event starts before some event ends, and
   then every event lies between its ends.
   */
  lemma RecomputedExactly(ranges: seq<Range>)
    ensures Recomputed(ranges).Some? <==> exists a, b :: a in ranges && b in ranges && a.from < b.to
    ensures Recomputed(ranges).Some? ==>
              forall r :: r in ranges ==> Recomputed(ranges).value.from <= r.from && r.to <= Recomputed(ranges).value.to
  {
    if ranges != [] {
      ExtremesReached(ranges);
      var a :| a in ranges && a.from == MinFrom(ranges);
      var b :| b in ranges && b.to == MaxTo(ranges);
    }
  }

  /** No larger range is recomputed than the events need: both its ends are ends of events. */
  lemma RecomputedIsTight(ranges: seq<Range>)
    ensures Recomputed(ranges).Some? ==>
              && (exists r :: r in ranges && r.from == Recomputed(ranges).value.from)
              && (exists r :: r in ranges && r.to == Recomputed(ranges).value.to)
  {
    if ranges != [] {
      ExtremesReached(ranges);
    }
  }

  // ----- Replacement

  function Deactivated(events: Events, calendar: string): Events {
    map id | id in events :: if id.calendar == calendar then events[id].(active := false) else events[id]
  }

  function Upserted(events: Events, calendar: string, parsed: seq<Parsed>): Events {
    if parsed == [] then events
    else
      var last := parsed[|parsed| - 1];
      Upserted(events, calendar, parsed[..|parsed| - 1])[EventId(calendar, last.sourceKey) :=
        Event(last.start, last.end, true)]
  }

  function Synced(events: Events, calendar: string, parsed: seq<Parsed>): Events {
    Upserted(Deactivated(events, calendar), calendar, parsed)
  }

  function RangesOf(parsed: seq<Parsed>): seq<Range> {
    seq(|parsed|, i requires 0 <= i < |parsed| => Range(parsed[i].start, parsed[i].end))
  }

  /** previous lists the ranges of the calendar's active events. */
  ghost predicate ListsActive(previous: seq<Range>, events: Events, calendar: string) {
    forall r :: r in previous <==>
      exists id :: id in events && id.calendar == calendar && events[id].active
        && r == Range(events[id].start, events[id].end)
  }

  class EventTable {
    var events: Events

    constructor (events: Events)
      ensures this.events == events
    {
      this.events := events;
    }

    /** previous is what the query before the transaction returned. */
    method Sync(calendar: string, parsed: seq<Parsed>, previous: seq<Range>) returns (recomputed: Option<Range>)
      modifies this
      ensures events == Synced(old(events), calendar, parsed)
      ensures recomputed == Recomputed(previous + RangesOf(parsed))
    {
      events := Deactivated(events, calendar);
      var start := events;
      for i := 0 to |parsed|
        invariant events == Upserted(start, calendar, parsed[..i])
      {
        assert parsed[..i + 1][..i] == parsed[..i];
        events := events[EventId(calendar, parsed[i].sourceKey) := Event(parsed[i].start, parsed[i].end, true)];
      }
      assert parsed[..|parsed|] == parsed;
      recomputed := Recomputed(previous + RangesOf(parsed));
    }

    method Revoke(calendar: string, previous: seq<Range>) returns (recomputed: Option<Range>)
      modifies this
      ensures events == Deactivated(old(events), calendar)
      ensures recomputed == Recomputed(previous)
    {
      events := Deactivated(events, calendar);
      recomputed := Recomputed(previous);
    }
  }

  // ----- What a replacement means

  /** The last parsed event with that key. */
  function Latest(parsed: seq<Parsed>, sourceKey: string): Option<Parsed> {
    if parsed == [] then None
    else if parsed[|parsed| - 1].sourceKey == sourceKey then Some(parsed[|parsed| - 1])
    else Latest(parsed[..|parsed| - 1], sourceKey)
  }

  predicate IsActive(events: Events, id: EventId) {
    id in events && events[id].active
  }

  lemma {:induction false} UpsertedContents(events: Events, calendar: string, parsed: seq<Parsed>, id: EventId)
    ensures var latest, now := Latest(parsed, id.sourceKey), Upserted(events, calendar, parsed);
            if id.calendar == calendar && latest.Some?
               then id in now && now[id] == Event(latest.value.start, latest.value.end, true)
            else (id in now <==> id in events) && (id in now ==> now[id] == events[id])
  {
    if parsed != [] {
      UpsertedContents(events, calendar, parsed[..|parsed| - 1], id);
    }
  }

  /**
   The calendar's active events are exactly the parsed ones; its others keep their dates,
   and the other calendars' do not change.
   */
  lemma SyncReplaces(events: Events, calendar: string, parsed: seq<Parsed>, id: EventId)
    ensures var latest, now := Latest(parsed, id.sourceKey), Synced(events, calendar, parsed);
            if id.calendar == calendar then
              && (IsActive(now, id) <==> latest.Some?)
              && (latest.Some? ==> now[id] == Event(latest.value.start, latest.value.end, true))
              && (id in events ==> id in now)
              && (latest.None? && id in events ==> now[id] == Event(events[id].start, events[id].end, false))
            else (id in now <==> id in events) && (id in now ==> now[id] == events[id])
  {
    UpsertedContents(Deactivated(events, calendar), calendar, parsed, id);
  }

  lemma {:induction false} LatestParsed(parsed: seq<Parsed>, sourceKey: string)
    ensures match Latest(parsed, sourceKey)
            case Some(p) => p in parsed && p.sourceKey == sourceKey
            case None => forall p :: p in parsed ==> p.sourceKey != sourceKey
  {
    if parsed != [] {
      LatestParsed(parsed[..|parsed| - 1], sourceKey);
      assert parsed == parsed[..|parsed| - 1] + [parsed[|parsed| - 1]];
    }
  }

  /** When the keys are distinct, as the parser makes them, every parsed event becomes active with its own dates. */
  lemma SyncActivatesEach(events: Events, calendar: string, parsed: seq<Parsed>, p: Parsed)
    requires p in parsed && forall q :: q in parsed && q.sourceKey == p.sourceKey ==> q == p
    ensures var now := Synced(events, calendar, parsed);
            EventId(calendar, p.sourceKey) in now && now[EventId(calendar, p.sourceKey)] == Event(p.start, p.end, true)
  {
    SyncReplaces(events, calendar, parsed, EventId(calendar, p.sourceKey));
    LatestParsed(parsed, p.sourceKey);
  }

  /** The active events on a date. */
  function Covering(events: Events, date: int): set<EventId> {
    set id | id in events && events[id].active && events[id].start <= date < events[id].end
  }

  /** Every date on which the set of active events changed is recomputed. */
  lemma SyncRecomputesChanges(events: Events, calendar: string, parsed: seq<Parsed>, previous: seq<Range>, date: int)
    requires ListsActive(previous, events, calendar)
    requires Covering(Synced(events, calendar, parsed), date) != Covering(events, date)
    ensures Contains(Recomputed(previous + RangesOf(parsed)), date)
  {
    var now, ranges := Synced(events, calendar, parsed), previous + RangesOf(parsed);
    var id :| (id in Covering(now, date)) != (id in Covering(events, date));
    SyncReplaces(events, calendar, parsed, id);
    LatestParsed(parsed, id.sourceKey);
    hide Recomputed, Synced, Latest;
    if id in Covering(events, date) {
      var r := Range(events[id].start, events[id].end);
      assert r in previous;
      RecomputedContains(ranges, r, date);
    } else {
      var r := Range(now[id].start, now[id].end);
      var i :| 0 <= i < |parsed| && r == Range(parsed[i].start, parsed[i].end);
      assert RangesOf(parsed)[i] == r;
      RecomputedContains(ranges, r, date);
    }
  }

  /** The same for revocation, which leaves the calendar without active events. */
  lemma RevokeRecomputesChanges(events: Events, calendar: string, previous: seq<Range>, date: int)
    requires ListsActive(previous, events, calendar)
    requires Covering(Deactivated(events, calendar), date) != Covering(events, date)
    ensures Contains(Recomputed(previous), date)
  {
    assert Synced(events, calendar, []) == Deactivated(events, calendar);
    assert previous + RangesOf([]) == previous;
    SyncRecomputesChanges(events, calendar, [], previous, date);
  }

  lemma RevokeDeactivates(events: Events, calendar: string, id: EventId)
    ensures var now := Deactivated(events, calendar);
            && (IsActive(now, id) <==> IsActive(events, id) && id.calendar != calendar)
            && (id.calendar == calendar ==>
                  && (id in now <==> id in events)
                  && (id in now ==> now[id] == Event(events[id].start, events[id].end, false)))
            && (id.calendar != calendar ==> (id in now <==> id in events) && (id in now ==> now[id] == events[id]))
  {
    SyncReplaces(events, calendar, [], id);
  }
}
