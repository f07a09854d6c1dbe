/**
 The matching proposal of src/lib/provider-integration-mapping-workspace.ts, and what becomes of it when
 it is submitted.
 */
module MappingWorkspace {
  import opened Options
  import opened NameSimilarity
  import opened ChannelMapping

  /** A local entity; parent is the variant of a rate plan. */
  datatype Local = Local(id: string, words: seq<string>, parent: string)

  /** A remote entity; order is the place of its name in the collation that breaks ties. */
  datatype Remote = Remote(id: string, words: seq<string>, parent: Option<string>, order: int)

  datatype Confidence = High | Medium | Low

  datatype Suggestion = Suggestion(external: string, confidence: Confidence)

  datatype WorkRow = WorkRow(local: string, current: Option<string>, suggestion: Option<Suggestion>)

  const THRESHOLD := 0.42

  function ConfidenceOf(score: real): Confidence {
    if score >= 0.88 then High else if score >= 0.64 then Medium else Low
  }

  /** The score of a remote entity, raised when it belongs to the remote parent of the local one. */
  function Score(words: seq<string>, parent: Option<string>, item: Remote): real {
    var aligned := parent.Some? && parent.value != "" && item.parent == parent;
    Min(0.99, Similarity(words, item.words) + if aligned then 0.12 else 0.0)
  }

  /** a comes strictly before b in the sorted list of candidates. */
  predicate Before(words: seq<string>, parent: Option<string>, a: Remote, b: Remote) {
    Score(words, parent, a) > Score(words, parent, b)
    || (Score(words, parent, a) == Score(words, parent, b) && a.order < b.order)
  }

  /** The first unused candidate of the sorted list. */
  function Best(words: seq<string>, parent: Option<string>, remote: seq<Remote>, used: set<string>): Option<Remote> {
    if remote == [] then None
    else
      var first, last := Best(words, parent, remote[..|remote| - 1], used), remote[|remote| - 1];
      if last.id in used then first
      else if first.None? || Before(words, parent, last, first.value) then Some(last)
      else first
  }

  function BestSuggestion(words: seq<string>, parent: Option<string>, remote: seq<Remote>,
                          used: set<string>): Option<Suggestion> {
    match Best(words, parent, remote, used)
    case Some(item) =>
      if Score(words, parent, item) < THRESHOLD then None
      else Some(Suggestion(item.id, ConfidenceOf(Score(words, parent, item))))
    case None => None
  }

  lemma {:induction false} BestIsFirst(words: seq<string>, parent: Option<string>, remote: seq<Remote>,
                                       used: set<string>)
    ensures match Best(words, parent, remote, used)
            case Some(item) =>
              && item in remote && item.id !in used
              && forall other :: other in remote && other.id !in used ==> !Before(words, parent, other, item)
            case None => forall other :: other in remote ==> other.id in used
  {
    if remote != [] {
      BestIsFirst(words, parent, remote[..|remote| - 1], used);
      assert remote == remote[..|remote| - 1] + [remote[|remote| - 1]];
      hide Score;
    }
  }

  /** A suggestion is the best unused candidate, and there is none only when every unused candidate is too weak. */
  lemma SuggestionIsBest(words: seq<string>, parent: Option<string>, remote: seq<Remote>, used: set<string>)
    ensures match BestSuggestion(words, parent, remote, used)
            case Some(s) =>
              && s.external !in used
              && exists item :: item in remote && item.id == s.external && Score(words, parent, item) >= THRESHOLD
                   && s.confidence == ConfidenceOf(Score(words, parent, item))
                   && forall other :: other in remote && other.id !in used ==>
                        Score(words, parent, other) <= Score(words, parent, item)
            case None =>
              forall other :: other in remote && other.id !in used ==> Score(words, parent, other) < THRESHOLD
  {
    BestIsFirst(words, parent, remote, used);
    hide Score, Best;
  }

  // ----- The workspace

  /** The external id to which a local entity is actively mapped. */
  function CurrentMapping(kind: Kind, stored: seq<Row>, local: string): Option<string> {
    if stored == [] then None
    else
      var m := stored[0].mapping;
      if m.kind == kind && m.local == local && m.status == Active then Some(m.external)
      else CurrentMapping(kind, stored[1..], local)
  }

  function ActiveExternals(kind: Kind, stored: seq<Row>): set<string> {
    set row | row in stored && row.mapping.kind == kind && row.mapping.status == Active :: row.mapping.external
  }

  datatype Matched = Matched(rows: seq<WorkRow>, used: set<string>)

  function Lookup(parents: map<string, string>, parent: string): Option<string> {
    if parent in parents then Some(parents[parent]) else None
  }

  /** One pass over the first n local entities; every suggestion uses up its external id. */
  function Match(kind: Kind, stored: seq<Row>, locals: seq<Local>, remote: seq<Remote>,
                 parents: map<string, string>, n: nat): (m: Matched)
    requires n <= |locals|
    ensures |m.rows| == n
  {
    if n == 0 then Matched([], ActiveExternals(kind, stored))
    else
      var before, local := Match(kind, stored, locals, remote, parents, n - 1), locals[n - 1];
      var current := CurrentMapping(kind, stored, local.id);
      var suggestion :=
        if current.Some? then None else BestSuggestion(local.words, Lookup(parents, local.parent), remote, before.used);
      Matched(before.rows + [WorkRow(local.id, current, suggestion)],
              if suggestion.Some? then before.used + {suggestion.value.external} else before.used)
  }

  /** The external id that stands for a room when its rate plans are matched. */
  function RoomExternal(row: WorkRow): Option<string> {
    if row.current.Some? then row.current
    else if row.suggestion.Some? && row.suggestion.value.confidence == High then Some(row.suggestion.value.external)
    else None
  }

  function RoomExternals(rows: seq<WorkRow>, n: nat): map<string, string>
    requires n <= |rows|
  {
    if n == 0 then map[]
    else
      var before, external := RoomExternals(rows, n - 1), RoomExternal(rows[n - 1]);
      if external.Some? && external.value != "" then before[rows[n - 1].local := external.value] else before
  }

  function Rooms(stored: seq<Row>, variants: seq<Local>, remote: seq<Remote>): seq<WorkRow> {
    Match(RoomType, stored, variants, remote, map[], |variants|).rows
  }

  function Rates(stored: seq<Row>, rooms: seq<WorkRow>, plans: seq<Local>, remote: seq<Remote>): seq<WorkRow> {
    Match(RatePlan, stored, plans, remote, RoomExternals(rooms, |rooms|), |plans|).rows
  }

  method MatchPass(kind: Kind, stored: seq<Row>, locals: seq<Local>, remote: seq<Remote>, parents: map<string, string>)
    returns (rows: seq<WorkRow>)
    ensures rows == Match(kind, stored, locals, remote, parents, |locals|).rows
  {
    var used := ActiveExternals(kind, stored);
    rows := [];
    for i := 0 to |locals|
      invariant Matched(rows, used) == Match(kind, stored, locals, remote, parents, i)
    {
      var current := CurrentMapping(kind, stored, locals[i].id);
      var suggestion := None;
      if current.None? {
        suggestion := BestSuggestion(locals[i].words, Lookup(parents, locals[i].parent), remote, used);
      }
      if suggestion.Some? {
        used := used + {suggestion.value.external};
      }
      rows := rows + [WorkRow(locals[i].id, current, suggestion)];
    }
  }

  method BuildWorkspace(stored: seq<Row>, variants: seq<Local>, plans: seq<Local>, remoteRooms: seq<Remote>,
                        remotePlans: seq<Remote>)
    returns (rooms: seq<WorkRow>, rates: seq<WorkRow>)
    ensures rooms == Rooms(stored, variants, remoteRooms)
    ensures rates == Rates(stored, rooms, plans, remotePlans)
  {
    rooms := MatchPass(RoomType, stored, variants, remoteRooms, map[]);
    var roomExternalByLocal := map[];
    for i := 0 to |rooms|
      invariant roomExternalByLocal == RoomExternals(rooms, i)
    {
      var external := RoomExternal(rooms[i]);
      if external.Some? && external.value != "" {
        roomExternalByLocal := roomExternalByLocal[rooms[i].local := external.value];
      }
    }
    rates := MatchPass(RatePlan, stored, plans, remotePlans, roomExternalByLocal);
  }

  // ----- What the passes guarantee

  /** The suggestions of the first rows are unused, distinct, for unmapped entities only; used holds them. */
  ghost predicate Injective(kind: Kind, stored: seq<Row>, m: Matched) {
    && ActiveExternals(kind, stored) <= m.used
    && (forall i :: 0 <= i < |m.rows| && m.rows[i].suggestion.Some? ==>
          && m.rows[i].current.None?
          && m.rows[i].suggestion.value.external in m.used
          && m.rows[i].suggestion.value.external !in ActiveExternals(kind, stored))
    && (forall i, j :: 0 <= i < j < |m.rows| && m.rows[i].suggestion.Some? && m.rows[j].suggestion.Some? ==>
          m.rows[i].suggestion.value.external != m.rows[j].suggestion.value.external)
  }

  lemma InjectiveStep(kind: Kind, stored: seq<Row>, m: Matched, row: WorkRow)
    requires Injective(kind, stored, m)
    requires row.suggestion.Some? ==> row.current.None? && row.suggestion.value.external !in m.used
    ensures Injective(kind, stored, Matched(m.rows + [row],
              if row.suggestion.Some? then m.used + {row.suggestion.value.external} else m.used))
  {
    hide ActiveExternals;
  }

  lemma {:induction false} MatchInjective(kind: Kind, stored: seq<Row>, locals: seq<Local>, remote: seq<Remote>,
                                          parents: map<string, string>, n: nat)
    requires n <= |locals|
    ensures var m := Match(kind, stored, locals, remote, parents, n);
            && Injective(kind, stored, m) && |m.rows| == n && forall i :: 0 <= i < n ==> m.rows[i].local == locals[i].id
  {
    hide ActiveExternals, CurrentMapping, BestSuggestion;
    if n > 0 {
      MatchInjective(kind, stored, locals, remote, parents, n - 1);
      hide Injective;
      var before := Match(kind, stored, locals, remote, parents, n - 1);
      var row := Match(kind, stored, locals, remote, parents, n).rows[n - 1];
      SuggestionUnused(locals[n - 1].words, Lookup(parents, locals[n - 1].parent), remote, before.used);
      InjectiveStep(kind, stored, before, row);
    }
  }

  lemma SuggestionUnused(words: seq<string>, parent: Option<string>, remote: seq<Remote>, used: set<string>)
    ensures BestSuggestion(words, parent, remote, used).Some?
            ==> BestSuggestion(words, parent, remote, used).value.external !in used
  {
    SuggestionIsBest(words, parent, remote, used);
  }

  /** No remote entity that is left over at the end is good enough for an entity that stays unmatched. */
  lemma {:induction false} NothingLeftToSuggest(kind: Kind, stored: seq<Row>, locals: seq<Local>, remote: seq<Remote>,
                                                parents: map<string, string>, n: nat, i: nat, item: Remote)
    requires i < n <= |locals| && item in remote
    requires var m := Match(kind, stored, locals, remote, parents, n);
             item.id !in m.used && m.rows[i].current.None? && m.rows[i].suggestion.None?
    ensures Score(locals[i].words, Lookup(parents, locals[i].parent), item) < THRESHOLD
  {
    hide ActiveExternals, CurrentMapping, BestSuggestion, Score;
    MatchInjective(kind, stored, locals, remote, parents, n - 1);
    if i == n - 1 {
      var used := Match(kind, stored, locals, remote, parents, n - 1).used;
      SuggestionIsBest(locals[i].words, Lookup(parents, locals[i].parent), remote, used);
    } else {
      NothingLeftToSuggest(kind, stored, locals, remote, parents, n - 1, i, item);
    }
  }

  // ----- Submitting every suggestion

  function Suggested(kind: Kind, rows: seq<WorkRow>): seq<Input> {
    if rows == [] then []
    else
      var before, last := Suggested(kind, rows[..|rows| - 1]), rows[|rows| - 1];
      if last.suggestion.Some? then before + [Input(kind, last.local, last.suggestion.value.external)] else before
  }

  predicate UniqueIds(locals: seq<Local>) {
    forall i, j :: 0 <= i < j < |locals| ==> locals[i].id != locals[j].id
  }

  /** The rows of different entities suggest different external ids. */
  ghost predicate Separate(rows: seq<WorkRow>) {
    forall i, j :: 0 <= i < j < |rows| && rows[i].suggestion.Some? && rows[j].suggestion.Some? ==>
      rows[i].local != rows[j].local && rows[i].suggestion.value.external != rows[j].suggestion.value.external
  }

  lemma {:induction false} SuggestedFrom(kind: Kind, rows: seq<WorkRow>, k: nat) returns (i: nat)
    requires k < |Suggested(kind, rows)|
    ensures i < |rows| && rows[i].suggestion.Some?
    ensures Suggested(kind, rows)[k] == Input(kind, rows[i].local, rows[i].suggestion.value.external)
  {
    var before := Suggested(kind, rows[..|rows| - 1]);
    if k < |before| {
      i := SuggestedFrom(kind, rows[..|rows| - 1], k);
    } else {
      i := |rows| - 1;
    }
  }

  lemma {:induction false} SuggestedDistinct(kind: Kind, rows: seq<WorkRow>)
    requires Separate(rows)
    ensures Distinct(Suggested(kind, rows))
  {
    if rows != [] {
      var before := Suggested(kind, rows[..|rows| - 1]);
      SuggestedDistinct(kind, rows[..|rows| - 1]);
      forall k | 0 <= k < |before| && rows[|rows| - 1].suggestion.Some?
        ensures !Clash(Target(before[k]), Target(Suggested(kind, rows)[|before|]))
      {
        var i := SuggestedFrom(kind, rows[..|rows| - 1], k);
        assert rows[i] == rows[..|rows| - 1][i];
      }
    }
  }

  lemma DistinctTogether(a: seq<Input>, b: seq<Input>, kindA: Kind, kindB: Kind)
    requires Distinct(a) && Distinct(b) && kindA != kindB
    requires (forall k :: 0 <= k < |a| ==> a[k].kind == kindA) && (forall k :: 0 <= k < |b| ==> b[k].kind == kindB)
    ensures Distinct(a + b)
  {
  }

  /** All suggestions of one pass: distinct, and none on an actively mapped external id. */
  lemma PassDistinct(kind: Kind, stored: seq<Row>, locals: seq<Local>, remote: seq<Remote>,
                     parents: map<string, string>)
    requires UniqueIds(locals)
    ensures var inputs := Suggested(kind, Match(kind, stored, locals, remote, parents, |locals|).rows);
            && Distinct(inputs)
            && forall k :: 0 <= k < |inputs| ==>
                 inputs[k].kind == kind && inputs[k].external !in ActiveExternals(kind, stored)
  {
    hide Match, ActiveExternals;
    var rows := Match(kind, stored, locals, remote, parents, |locals|).rows;
    MatchInjective(kind, stored, locals, remote, parents, |locals|);
    SuggestedDistinct(kind, rows);
    forall k | 0 <= k < |Suggested(kind, rows)|
      ensures Suggested(kind, rows)[k].kind == kind
              && Suggested(kind, rows)[k].external !in ActiveExternals(kind, stored)
    {
      var i := SuggestedFrom(kind, rows, k);
    }
  }

  function AllSuggested(rooms: seq<WorkRow>, rates: seq<WorkRow>): seq<Input> {
    Suggested(RoomType, rooms) + Suggested(RatePlan, rates)
  }

  lemma AllSuggestedDistinct(stored: seq<Row>, variants: seq<Local>, plans: seq<Local>, remoteRooms: seq<Remote>,
                             remotePlans: seq<Remote>)
    requires UniqueIds(variants) && UniqueIds(plans)
    ensures var rooms := Rooms(stored, variants, remoteRooms);
            var inputs := AllSuggested(rooms, Rates(stored, rooms, plans, remotePlans));
            && Distinct(inputs)
            && forall k :: 0 <= k < |inputs| ==> inputs[k].external !in ActiveExternals(inputs[k].kind, stored)
  {
    var rooms := Rooms(stored, variants, remoteRooms);
    var rates := Rates(stored, rooms, plans, remotePlans);
    PassDistinct(RoomType, stored, variants, remoteRooms, map[]);
    PassDistinct(RatePlan, stored, plans, remotePlans, RoomExternals(rooms, |rooms|));
    hide ActiveExternals, Match, Suggested, Distinct;
    DistinctTogether(Suggested(RoomType, rooms), Suggested(RatePlan, rates), RoomType, RatePlan);
  }

  /** A stored mapping whose external id is suggested is inactive. */
  lemma SuggestedOnlyWhenInactive(stored: seq<Row>, inputs: seq<Input>, row: Row)
    requires row in stored && Taken(inputs, row.mapping)
    requires forall k :: 0 <= k < |inputs| ==> inputs[k].external !in ActiveExternals(inputs[k].kind, stored)
    ensures row.mapping.status == Inactive
  {
    var k :| 0 <= k < |inputs| && ExternalKey(inputs[k]) == (row.mapping.kind, row.mapping.external);
    assert inputs[k].external !in ActiveExternals(inputs[k].kind, stored);
  }

  /** An inactive stored mapping gets in the way of a batch when it stays, or when it is replaced too late. */
  ghost predicate Blocks(rows: Rows, inputs: seq<Input>, id: RowId)
    requires id in rows
  {
    && rows[id].status == Inactive
    && ((Taken(inputs, rows[id]) && !Replaced(inputs, rows[id]))
        || exists i, j :: 0 <= i < j < |inputs| && HeldBy(rows, inputs, i, j, id))
  }

  /**
   Submitting every suggestion of a workspace that was built from the current mappings succeeds,
   within the batch size, exactly when no inactive stored mapping blocks it.
   */
  lemma SuggestionsSucceedExactly(stored: seq<Row>, rows: Rows, newIds: seq<RowId>, variants: seq<Local>,
                                  plans: seq<Local>, remoteRooms: seq<Remote>, remotePlans: seq<Remote>)
    requires UniqueIds(variants) && UniqueIds(plans) && Current(stored, rows) && Bijective(rows)
    requires FreshIds(rows, newIds)
    requires var rooms := Rooms(stored, variants, remoteRooms);
             |newIds| == |AllSuggested(rooms, Rates(stored, rooms, plans, remotePlans))|
    ensures var rooms := Rooms(stored, variants, remoteRooms);
            var inputs := AllSuggested(rooms, Rates(stored, rooms, plans, remotePlans));
            UpsertTx(stored, rows, inputs, newIds, true).Ok?
            <==> 0 < |inputs| <= MAX_BATCH && forall id :: id in rows ==> !Blocks(rows, inputs, id)
  {
    var rooms := Rooms(stored, variants, remoteRooms);
    var inputs := AllSuggested(rooms, Rates(stored, rooms, plans, remotePlans));
    AllSuggestedDistinct(stored, variants, plans, remoteRooms, remotePlans);
    UpsertSucceedsExactly(stored, rows, inputs, newIds, true);
    hide AllSuggested, Rooms, Rates, UpsertTx, ActiveExternals, Distinct, Replaced, Bijective;
    BlockedByInactive(stored, rows, inputs);
  }

  lemma BlockedByInactive(stored: seq<Row>, rows: Rows, inputs: seq<Input>)
    requires Current(stored, rows)
    requires forall k :: 0 <= k < |inputs| ==> inputs[k].external !in ActiveExternals(inputs[k].kind, stored)
    ensures (forall id :: id in rows && Taken(inputs, rows[id]) ==> Replaced(inputs, rows[id]))
            && NoneStillHeld(rows, inputs, |inputs|)
            <==> forall id :: id in rows ==> !Blocks(rows, inputs, id)
  {
    hide Replaced, ActiveExternals;
    forall id | id in rows && Taken(inputs, rows[id]) ensures rows[id].status == Inactive {
      SuggestedOnlyWhenInactive(stored, inputs, Row(id, rows[id]));
    }
    forall i, j, id | 0 <= i < j < |inputs| && HeldBy(rows, inputs, i, j, id) ensures Taken(inputs, rows[id]) {
      assert ExternalKey(inputs[i]) == (rows[id].kind, rows[id].external);
    }
    hide HeldBy, Taken;
    if forall id :: id in rows ==> !Blocks(rows, inputs, id) {
      forall i | 0 <= i < |inputs| ensures !StillHeld(rows, inputs, i) {
      }
    }
    if NoneStillHeld(rows, inputs, |inputs|) {
      forall i, j, id | 0 <= i < j < |inputs| && id in rows ensures !HeldBy(rows, inputs, i, j, id) {
        assert !StillHeld(rows, inputs, i);
      }
    }
  }

  /** In particular it succeeds whenever all stored mappings are active. */
  lemma AllActiveSuggestionsSucceed(stored: seq<Row>, rows: Rows, newIds: seq<RowId>, variants: seq<Local>,
                                    plans: seq<Local>, remoteRooms: seq<Remote>, remotePlans: seq<Remote>)
    requires UniqueIds(variants) && UniqueIds(plans) && Current(stored, rows) && Bijective(rows)
    requires FreshIds(rows, newIds)
    requires forall id :: id in rows ==> rows[id].status == Active
    requires var rooms := Rooms(stored, variants, remoteRooms);
             |newIds| == |AllSuggested(rooms, Rates(stored, rooms, plans, remotePlans))|
    ensures var rooms := Rooms(stored, variants, remoteRooms);
            var inputs := AllSuggested(rooms, Rates(stored, rooms, plans, remotePlans));
            UpsertTx(stored, rows, inputs, newIds, true).Ok? <==> 0 < |inputs| <= MAX_BATCH
  {
    hide AllSuggested, Rooms, Rates, UpsertTx, Bijective, FreshIds, Current;
    SuggestionsSucceedExactly(stored, rows, newIds, variants, plans, remoteRooms, remotePlans);
  }

  lemma SameNameSuggested(words: seq<string>, item: Remote)
    requires words == item.words && Words(words) && Tokens(words) != []
    ensures BestSuggestion(words, None, [item], {}) == Some(Suggestion(item.id, High))
  {
    SimilarityRange(words, item.words);
    hide Similarity;
    assert Best(words, None, [], {}) == None;
    assert [item][..0] == [];
  }

  lemma SoleMatch(stored: Row, variant: Local, item: Remote)
    requires stored.mapping.status == Inactive && variant.words == item.words && Words(item.words)
    requires Tokens(item.words) != []
    ensures Rooms([stored], [variant], [item]) == [WorkRow(variant.id, None, Some(Suggestion(item.id, High)))]
  {
    SameNameSuggested(variant.words, item);
    hide BestSuggestion, Tokens;
    assert CurrentMapping(RoomType, [], variant.id) == None;
    assert [stored][1..] == [];
    assert ActiveExternals(RoomType, [stored]) == {};
    assert Match(RoomType, [stored], [variant], [item], map[], 0) == Matched([], {});
  }

  /** An inactive mapping that blocks: its external id is suggested for another entity of the same name. */
  lemma InactiveMappingBlocks(stored: Row, variant: Local, item: Remote, newId: RowId, owned: bool)
    requires stored.mapping.kind == RoomType && stored.mapping.status == Inactive
    requires stored.mapping.external == item.id && stored.mapping.local != variant.id
    requires variant.words == item.words && Words(item.words) && Tokens(item.words) != []
    ensures var inputs := AllSuggested(Rooms([stored], [variant], [item]), []);
            && inputs == [Input(RoomType, variant.id, item.id)]
            && UpsertTx([stored], map[stored.id := stored.mapping], inputs, [newId], owned)
               == Err(ExternalAlreadyAssigned)
  {
    SoleMatch(stored, variant, item);
    var row := WorkRow(variant.id, None, Some(Suggestion(item.id, High)));
    hide Rooms, UpsertTx, Tokens;
    assert [row][..0] == [];
    assert Suggested(RoomType, []) == [] && Suggested(RatePlan, []) == [];
    assert Suggested(RoomType, [row]) == [Input(RoomType, variant.id, item.id)];
    OnlyInputBlocked(stored, Input(RoomType, variant.id, item.id), newId, owned);
  }

  lemma OnlyInputBlocked(row: Row, input: Input, newId: RowId, owned: bool)
    requires row.mapping.kind == input.kind && row.mapping.external == input.external
    requires row.mapping.local != input.local
    ensures UpsertTx([row], map[row.id := row.mapping], [input], [newId], owned) == Err(ExternalAlreadyAssigned)
  {
    var inputs := [input];
    NoDuplicate(inputs, 1);
    assert ExternalKey(inputs[0]) == (row.mapping.kind, row.mapping.external);
    assert Taken(inputs, row.mapping) && !Replaced(inputs, row.mapping);
    assert row in [row];
    assert Assigned([row], inputs);
  }
}
