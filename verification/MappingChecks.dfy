/** What the checks before the transaction of a batch upsert achieve, without any unique index. */
module MappingChecks {
  import opened Options
  import opened ChannelMapping

  /** No two of the mappings share a local or an external id of one type. */
  ghost predicate PartialBijection(ms: seq<Mapping>) {
    forall i, j :: 0 <= i < j < |ms| ==> !Clash(ms[i], ms[j])
  }

  ghost predicate UniqueRows(listing: seq<Row>) {
    forall i, j :: 0 <= i < j < |listing| ==> listing[i].id != listing[j].id
  }

  function Targets(inputs: seq<Input>): seq<Mapping> {
    seq(|inputs|, k requires 0 <= k < |inputs| => Target(inputs[k]))
  }

  /** The listed mappings that the batch does not replace. */
  function Remaining(listing: seq<Row>, inputs: seq<Input>): seq<Mapping> {
    if listing == [] then []
    else
      var before, m := Remaining(listing[..|listing| - 1], inputs), listing[|listing| - 1].mapping;
      if Replaced(inputs, m) then before else before + [m]
  }

  /** What the table should hold after the batch. */
  function Intended(listing: seq<Row>, inputs: seq<Input>): seq<Mapping> {
    Targets(inputs) + Remaining(listing, inputs)
  }

  lemma {:induction false} RemainingMembers(listing: seq<Row>, inputs: seq<Input>)
    ensures forall m :: m in Remaining(listing, inputs)
                        <==> !Replaced(inputs, m) && exists row :: row in listing && row.mapping == m
  {
    hide Replaced;
    if listing != [] {
      var init, last := listing[..|listing| - 1], listing[|listing| - 1];
      RemainingMembers(init, inputs);
      assert forall row :: row in listing <==> row in init || row == last by {
        assert listing == init + [last];
      }
    }
  }

  lemma {:induction false} RemainingBijective(listing: seq<Row>, rows: Rows, inputs: seq<Input>)
    requires UniqueRows(listing) && Bijective(rows)
    requires forall row :: row in listing ==> row.id in rows && rows[row.id] == row.mapping
    ensures PartialBijection(Remaining(listing, inputs))
  {
    hide Replaced;
    if listing != [] {
      var init, last := listing[..|listing| - 1], listing[|listing| - 1];
      assert listing == init + [last];
      RemainingBijective(init, rows, inputs);
      RemainingMembers(init, inputs);
      var before := Remaining(init, inputs);
      forall i | 0 <= i < |before| ensures !Clash(before[i], last.mapping) {
        assert before[i] in before;
        var row :| row in init && row.mapping == before[i];
        assert row.id != last.id;
        assert !Clash(rows[row.id], rows[last.id]);
      }
    }
  }

  lemma AppendBijective(a: seq<Mapping>, b: seq<Mapping>)
    ensures PartialBijection(a + b)
            <==> PartialBijection(a) && PartialBijection(b) && forall x, y :: x in a && y in b ==> !Clash(x, y)
  {
    hide Clash;
    var s := a + b;
    if PartialBijection(s) {
      forall i, j | 0 <= i < j < |a| ensures !Clash(a[i], a[j]) {
        assert s[i] == a[i] && s[j] == a[j];
      }
      forall i, j | 0 <= i < j < |b| ensures !Clash(b[i], b[j]) {
        assert s[|a| + i] == b[i] && s[|a| + j] == b[j];
      }
      forall x, y | x in a && y in b ensures !Clash(x, y) {
        var i :| 0 <= i < |a| && a[i] == x;
        var j :| 0 <= j < |b| && b[j] == y;
        assert s[i] == x && s[|a| + j] == y;
      }
    } else if PartialBijection(a) && PartialBijection(b) {
      var i, j :| 0 <= i < j < |s| && Clash(s[i], s[j]);
      assert i < |a| <= j;
      assert s[i] in a && s[j] in b;
    }
  }

  lemma TargetsBijective(inputs: seq<Input>)
    ensures PartialBijection(Targets(inputs)) <==> Distinct(inputs)
  {
    if PartialBijection(Targets(inputs)) {
      forall i, j | 0 <= i < j < |inputs| ensures !Clash(Target(inputs[i]), Target(inputs[j])) {
        assert !Clash(Targets(inputs)[i], Targets(inputs)[j]);
      }
    }
  }

  /** A mapping that stays cannot share its local id with an input, so it clashes only when its external id is taken. */
  lemma StayingClash(inputs: seq<Input>, m: Mapping)
    requires !Replaced(inputs, m)
    ensures (forall x :: x in Targets(inputs) ==> !Clash(x, m)) <==> !Taken(inputs, m)
  {
    if k :| 0 <= k < |inputs| && ExternalKey(inputs[k]) == (m.kind, m.external) {
      assert Targets(inputs)[k] in Targets(inputs) && Clash(Targets(inputs)[k], m);
    }
    forall x | x in Targets(inputs) && Clash(x, m) ensures Taken(inputs, m) {
      var k :| 0 <= k < |inputs| && Targets(inputs)[k] == x;
      assert LocalKey(inputs[k]) != (m.kind, m.local);
      assert ExternalKey(inputs[k]) == (m.kind, m.external);
    }
  }

  /** The checks pass exactly when the intended table is a partial bijection for every mapping type. */
  lemma ChecksMeanBijection(listing: seq<Row>, rows: Rows, inputs: seq<Input>)
    requires Current(listing, rows) && Bijective(rows) && UniqueRows(listing)
    ensures Duplicate(inputs, |inputs|).None? && !Assigned(listing, inputs)
            <==> PartialBijection(Intended(listing, inputs))
  {
    NoDuplicate(inputs, |inputs|);
    TargetsBijective(inputs);
    RemainingBijective(listing, rows, inputs);
    RemainingMembers(listing, inputs);
    AppendBijective(Targets(inputs), Remaining(listing, inputs));
    hide Bijective, Current, UniqueRows, PartialBijection, Targets, Remaining, Duplicate, Replaced, Taken;
    forall m | !Replaced(inputs, m)
      ensures (forall x :: x in Targets(inputs) ==> !Clash(x, m)) <==> !Taken(inputs, m)
    {
      StayingClash(inputs, m);
    }
    hide Clash;
    assert Assigned(listing, inputs) <==> exists m :: m in Remaining(listing, inputs) && Taken(inputs, m);
  }

  /** Two rows of the written table do not clash: nothing but the checks is needed for that. */
  lemma WrittenDiffer(listing: seq<Row>, rows: Rows, inputs: seq<Input>, newIds: seq<RowId>, now: Rows, k: nat,
                      other: RowId)
    requires k < |inputs| == |newIds| && Ready(listing, rows, inputs, newIds)
    requires Written(listing, rows, inputs, newIds, |inputs|, now)
    requires other in now && other != IdFor(listing, inputs, newIds, k)
    ensures !Clash(now[other], Target(inputs[k])) && !Clash(Target(inputs[k]), now[other])
  {
    if l :| 0 <= l < |inputs| && IdFor(listing, inputs, newIds, l) == other {
      assert l != k;
    } else {
      assert now[other] == rows[other];
      RowOfInput(listing, rows, inputs, newIds, k);
      if ExternalKey(inputs[k]) == (rows[other].kind, rows[other].external) {
        var j := ReplacedBy(listing, rows, inputs, k, other);
        RowOfInput(listing, rows, inputs, newIds, j);
      }
    }
  }

  /** A batch that passes the checks leaves a partial bijection, and exactly the intended mappings. */
  lemma WrittenIsBijective(listing: seq<Row>, rows: Rows, inputs: seq<Input>, newIds: seq<RowId>, now: Rows)
    requires |inputs| == |newIds| && Ready(listing, rows, inputs, newIds)
    requires Written(listing, rows, inputs, newIds, |inputs|, now)
    ensures Bijective(now)
  {
    forall a, b | a in now && b in now && a != b ensures !Clash(now[a], now[b]) {
      if k :| 0 <= k < |inputs| && IdFor(listing, inputs, newIds, k) == a {
        WrittenDiffer(listing, rows, inputs, newIds, now, k, b);
      } else if k :| 0 <= k < |inputs| && IdFor(listing, inputs, newIds, k) == b {
        WrittenDiffer(listing, rows, inputs, newIds, now, k, a);
      } else {
        assert now[a] == rows[a] && now[b] == rows[b];
      }
    }
  }

  lemma WrittenWasIntended(listing: seq<Row>, rows: Rows, inputs: seq<Input>, newIds: seq<RowId>, now: Rows, id: RowId)
    requires |inputs| == |newIds| && Ready(listing, rows, inputs, newIds)
    requires Written(listing, rows, inputs, newIds, |inputs|, now) && id in now
    ensures now[id] in Intended(listing, inputs)
  {
    if k :| 0 <= k < |inputs| && IdFor(listing, inputs, newIds, k) == id {
      assert Targets(inputs)[k] == now[id];
    } else {
      NotReplaced(listing, rows, inputs, newIds, id);
      RemainingMembers(listing, inputs);
      hide Bijective, FreshIds, Distinct, Assigned, Replaced, Remaining, IdFor;
      assert Row(id, rows[id]) in listing;
    }
  }

  lemma StaysWritten(listing: seq<Row>, rows: Rows, inputs: seq<Input>, newIds: seq<RowId>, now: Rows, row: Row)
    requires |inputs| == |newIds| && Ready(listing, rows, inputs, newIds)
    requires Written(listing, rows, inputs, newIds, |inputs|, now) && row in listing && !Replaced(inputs, row.mapping)
    ensures row.id in now && now[row.id] == row.mapping
  {
    forall k | 0 <= k < |inputs| ensures IdFor(listing, inputs, newIds, k) != row.id {
      RowOfInput(listing, rows, inputs, newIds, k);
      assert LocalKey(inputs[k]) != (row.mapping.kind, row.mapping.local);
    }
  }

  lemma WrittenIsIntended(listing: seq<Row>, rows: Rows, inputs: seq<Input>, newIds: seq<RowId>, now: Rows, m: Mapping)
    requires |inputs| == |newIds| && Ready(listing, rows, inputs, newIds)
    requires Written(listing, rows, inputs, newIds, |inputs|, now)
    ensures (exists id :: id in now && now[id] == m) <==> m in Intended(listing, inputs)
  {
    if id :| id in now && now[id] == m {
      WrittenWasIntended(listing, rows, inputs, newIds, now, id);
    }
    if m in Targets(inputs) {
      var k :| 0 <= k < |inputs| && Targets(inputs)[k] == m;
      assert now[IdFor(listing, inputs, newIds, k)] == m;
    } else if m in Remaining(listing, inputs) {
      RemainingMembers(listing, inputs);
      hide Ready, Written, Replaced, Remaining;
      var row :| row in listing && row.mapping == m;
      StaysWritten(listing, rows, inputs, newIds, now, row);
    }
  }

  lemma NotReplaced(listing: seq<Row>, rows: Rows, inputs: seq<Input>, newIds: seq<RowId>, id: RowId)
    requires |inputs| == |newIds| && Ready(listing, rows, inputs, newIds) && id in rows
    requires forall k :: 0 <= k < |inputs| ==> IdFor(listing, inputs, newIds, k) != id
    ensures !Replaced(inputs, rows[id])
  {
    forall k | 0 <= k < |inputs| ensures LocalKey(inputs[k]) != (rows[id].kind, rows[id].local) {
      RowOfInput(listing, rows, inputs, newIds, k);
    }
  }

  /** So a batch that succeeds leaves exactly the intended table, which the checks made a partial bijection. */
  lemma SuccessIsIntended(listing: seq<Row>, rows: Rows, inputs: seq<Input>, newIds: seq<RowId>, owned: bool)
    requires |inputs| == |newIds| && Current(listing, rows) && Bijective(rows) && FreshIds(rows, newIds)
    requires UpsertTx(listing, rows, inputs, newIds, owned).Ok?
    ensures var now := UpsertTx(listing, rows, inputs, newIds, owned).value;
            && Bijective(now)
            && forall m :: (exists id :: id in now && now[id] == m) <==> m in Intended(listing, inputs)
  {
    NoDuplicate(inputs, |inputs|);
    WritesSucceedExactly(listing, rows, inputs, newIds, |inputs|);
    var now := UpsertTx(listing, rows, inputs, newIds, owned).value;
    hide UpsertTx, WriteInputs, Written, Bijective, Current, FreshIds, Distinct, Assigned, Intended;
    WrittenIsBijective(listing, rows, inputs, newIds, now);
    forall m ensures (exists id :: id in now && now[id] == m) <==> m in Intended(listing, inputs) {
      WrittenIsIntended(listing, rows, inputs, newIds, now, m);
    }
  }

  // ----- What a batch stores and what it reports

  /** Every input of a successful batch is stored with its own ids, and active. */
  lemma InputIsStored(listing: seq<Row>, rows: Rows, inputs: seq<Input>, newIds: seq<RowId>, owned: bool, k: nat)
    requires |inputs| == |newIds| && Current(listing, rows) && Bijective(rows) && FreshIds(rows, newIds)
    requires UpsertTx(listing, rows, inputs, newIds, owned).Ok? && k < |inputs|
    ensures var now := UpsertTx(listing, rows, inputs, newIds, owned).value;
            exists id :: id in now && now[id] == Mapping(inputs[k].kind, inputs[k].local, inputs[k].external, Active)
                         && (forall was :: (was in rows && rows[was].kind == inputs[k].kind
                                            && rows[was].local == inputs[k].local) ==> was == id)
                         && (id in rows || id == newIds[k])
  {
    NoDuplicate(inputs, |inputs|);
    WritesSucceedExactly(listing, rows, inputs, newIds, |inputs|);
    RowOfInput(listing, rows, inputs, newIds, k);
    var now := UpsertTx(listing, rows, inputs, newIds, owned).value;
    hide UpsertTx, Current, Bijective, FreshIds, Distinct;
    assert now[IdFor(listing, inputs, newIds, k)]
           == Mapping(inputs[k].kind, inputs[k].local, inputs[k].external, Active);
    assert IdFor(listing, inputs, newIds, k) in rows || IdFor(listing, inputs, newIds, k) == newIds[k];
  }

  ghost predicate SameLocalBefore(inputs: seq<Input>, i: nat)
    requires i < |inputs|
  {
    exists k :: 0 <= k < i && inputs[k].kind == inputs[i].kind && inputs[k].local == inputs[i].local
  }

  ghost predicate SameExternalBefore(inputs: seq<Input>, i: nat)
    requires i < |inputs|
  {
    exists k :: 0 <= k < i && inputs[k].kind == inputs[i].kind && inputs[k].external == inputs[i].external
  }

  /** i is the first input that repeats an id of an earlier one. */
  ghost predicate FirstRepeat(inputs: seq<Input>, n: nat, i: nat)
    requires n <= |inputs|
  {
    i < n && (SameLocalBefore(inputs, i) || SameExternalBefore(inputs, i))
    && forall j :: 0 <= j < i ==> !SameLocalBefore(inputs, j) && !SameExternalBefore(inputs, j)
  }

  lemma {:induction false} NoRepeatNoError(inputs: seq<Input>, n: nat)
    requires n <= |inputs| && forall i :: 0 <= i < n ==> !SameLocalBefore(inputs, i) && !SameExternalBefore(inputs, i)
    ensures Duplicate(inputs, n).None?
  {
    if n > 0 {
      NoRepeatNoError(inputs, n - 1);
      RepeatKeys(inputs, n - 1);
    }
  }

  /** The first repeated id is reported, the local one when both are repeated at once. */
  lemma {:induction false} FirstRepeatReported(inputs: seq<Input>, n: nat, i: nat)
    requires n <= |inputs| && FirstRepeat(inputs, n, i)
    ensures Duplicate(inputs, n) == Some(if SameLocalBefore(inputs, i) then LocalDuplicated else ExternalDuplicated)
  {
    if i == n - 1 {
      NoRepeatNoError(inputs, i);
      RepeatKeys(inputs, i);
      hide SameLocalBefore, SameExternalBefore;
    } else {
      hide SameLocalBefore, SameExternalBefore;
      FirstRepeatReported(inputs, n - 1, i);
    }
  }

  lemma RepeatKeys(inputs: seq<Input>, i: nat)
    requires i < |inputs|
    ensures SameLocalBefore(inputs, i) <==> exists k :: 0 <= k < i && LocalKey(inputs[k]) == LocalKey(inputs[i])
    ensures SameExternalBefore(inputs, i) <==>
            exists k :: 0 <= k < i && ExternalKey(inputs[k]) == ExternalKey(inputs[i])
  {
    forall k | 0 <= k < i
      ensures LocalKey(inputs[k]) == LocalKey(inputs[i])
              <==> inputs[k].kind == inputs[i].kind && inputs[k].local == inputs[i].local
      ensures ExternalKey(inputs[k]) == ExternalKey(inputs[i])
              <==> inputs[k].kind == inputs[i].kind && inputs[k].external == inputs[i].external
    {
    }
  }

  lemma {:induction false} WritesReport(listing: seq<Row>, rows: Rows, inputs: seq<Input>, newIds: seq<RowId>, n: nat)
    requires n <= |inputs| == |newIds|
    ensures var r := WriteInputs(listing, rows, inputs, newIds, n); r.Err? ==> r.error == UniqueViolation
  {
    if n > 0 {
      WritesReport(listing, rows, inputs, newIds, n - 1);
    }
  }

  /**
   Which error a batch reports: the size, a repeated id, an assigned external id, ownership, and the index,
   in this order.
   */
  lemma UpsertReports(listing: seq<Row>, rows: Rows, inputs: seq<Input>, newIds: seq<RowId>, owned: bool)
    requires |inputs| == |newIds|
    ensures var r := UpsertTx(listing, rows, inputs, newIds, owned);
            var taken := exists row, k :: row in listing && 0 <= k < |inputs| && inputs[k].kind == row.mapping.kind
                                             && inputs[k].external == row.mapping.external
                                             && !Replaced(inputs, row.mapping);
            && (r == Err(BatchSizeInvalid) <==> |inputs| == 0 || |inputs| > 250)
            && (r == Err(LocalDuplicated) || r == Err(ExternalDuplicated) <==> 0 < |inputs| <= 250 && !Distinct(inputs))
            && (r == Err(ExternalAlreadyAssigned) <==> 0 < |inputs| <= 250 && Distinct(inputs) && taken)
            && (r == Err(LocalEntityNotOwned) <==> 0 < |inputs| <= 250 && Distinct(inputs) && !taken && !owned)
  {
    NoDuplicate(inputs, |inputs|);
    DuplicateKinds(inputs, |inputs|);
    WritesReport(listing, rows, inputs, newIds, |inputs|);
    AssignedMeans(listing, inputs);
    hide WriteInputs, Duplicate, Distinct, Assigned, Replaced;
  }

  lemma {:induction false} DuplicateKinds(inputs: seq<Input>, n: nat)
    requires n <= |inputs|
    ensures var d := Duplicate(inputs, n); d.Some? ==> d.value == LocalDuplicated || d.value == ExternalDuplicated
  {
    if n > 0 {
      DuplicateKinds(inputs, n - 1);
    }
  }

  lemma AssignedMeans(listing: seq<Row>, inputs: seq<Input>)
    ensures Assigned(listing, inputs) <==>
              exists row, k :: row in listing && 0 <= k < |inputs| && inputs[k].kind == row.mapping.kind
                               && inputs[k].external == row.mapping.external && !Replaced(inputs, row.mapping)
  {
    hide Replaced;
    forall row, k | row in listing && 0 <= k < |inputs| && inputs[k].kind == row.mapping.kind
                    && inputs[k].external == row.mapping.external
      ensures Taken(inputs, row.mapping)
    {
      assert ExternalKey(inputs[k]) == (row.mapping.kind, row.mapping.external);
    }
  }

  /** A listed mapping is replaced when some input has its type and local id. */
  lemma ReplacedMeans(inputs: seq<Input>, m: Mapping)
    ensures Replaced(inputs, m) <==>
            exists k :: 0 <= k < |inputs| && inputs[k].kind == m.kind && inputs[k].local == m.local
  {
    if k :| 0 <= k < |inputs| && inputs[k].kind == m.kind && inputs[k].local == m.local {
      assert LocalKey(inputs[k]) == (m.kind, m.local);
    }
  }

  // ----- Outdated listings

  /** An input whose listed row is gone meanwhile is not written. */
  lemma RemovedRowIsSkipped(row: Row, rows: Rows, input: Input, newId: RowId)
    requires row.mapping.kind == input.kind && row.mapping.local == input.local && row.id !in rows
    ensures UpsertTx([row], rows, [input], [newId], true) == Ok(rows)
  {
    SingleBatch([row], rows, input, newId);
    assert Find([row], input) == Some(row.id);
    ReplacedMeans([input], row.mapping);
    assert [input][0].kind == row.mapping.kind;
    assert !Assigned([row], [input]);
  }

  lemma SingleBatch(listing: seq<Row>, rows: Rows, input: Input, newId: RowId)
    ensures WriteInputs(listing, rows, [input], [newId], 1) == WriteInput(listing, rows, input, newId)
    ensures Duplicate([input], 1).None?
  {
    assert WriteInputs(listing, rows, [input], [newId], 0) == Ok(rows);
    NoDuplicate([input], 1);
  }

  /** An input that the listing does not show is refused when its row, external id or primary key exists meanwhile. */
  lemma UnlistedRowIsRefused(rows: Rows, input: Input, newId: RowId)
    ensures UpsertTx([], rows, [input], [newId], true).Err? <==>
              newId in rows
              || exists id :: id in rows && rows[id].kind == input.kind
                              && (rows[id].local == input.local || rows[id].external == input.external)
  {
    SingleBatch([], rows, input, newId);
    assert Find([], input) == None;
    assert !Assigned([], [input]);
    forall id | id in rows
      ensures Clash(rows[id], Target(input))
              <==> rows[id].kind == input.kind && (rows[id].local == input.local || rows[id].external == input.external)
    {
    }
  }
}
