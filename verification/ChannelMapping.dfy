/** Batch upsert of integration mappings: src/lib/provider-integration-operations.ts. */
module ChannelMapping {
  import opened Options

  type RowId = string

  datatype Kind = Property | RoomType | RatePlan | Tax | Account | Calendar

  datatype RowStatus = Active | Inactive

  datatype Mapping = Mapping(kind: Kind, local: string, external: string, status: RowStatus)

  /** A mapping as listed by the query before the transaction. */
  datatype Row = Row(id: RowId, mapping: Mapping)

  /** A normalized input of the batch. */
  datatype Input = Input(kind: Kind, local: string, external: string)

  type Rows = map<RowId, Mapping>

  datatype Error =
    | BatchSizeInvalid | LocalDuplicated | ExternalDuplicated | ExternalAlreadyAssigned
    | LocalEntityNotOwned | UniqueViolation

  const MAX_BATCH := 250

  function LocalKey(i: Input): (Kind, string) { (i.kind, i.local) }

  function ExternalKey(i: Input): (Kind, string) { (i.kind, i.external) }

  function Target(i: Input): Mapping { Mapping(i.kind, i.local, i.external, Active) }

  // ----- The table with its two unique indexes

  predicate Clash(a: Mapping, b: Mapping) {
    a.kind == b.kind && (a.local == b.local || a.external == b.external)
  }

  /** Per mapping type, the table is a partial bijection between local and external ids. */
  predicate Bijective(rows: Rows) {
    forall a, b :: a in rows && b in rows && a != b ==> !Clash(rows[a], rows[b])
  }

  predicate Occupied(rows: Rows, id: RowId, m: Mapping) {
    exists other :: other in rows && other != id && Clash(rows[other], m)
  }

  /** One statement that writes one row; both indexes are checked at once. */
  function Write(rows: Rows, id: RowId, m: Mapping): Result<Rows, Error> {
    if Occupied(rows, id, m) then Err(UniqueViolation) else Ok(rows[id := m])
  }

  // ----- The batch

  function Find(listing: seq<Row>, i: Input): Option<RowId> {
    if listing == [] then None
    else if listing[0].mapping.kind == i.kind && listing[0].mapping.local == i.local then Some(listing[0].id)
    else Find(listing[1..], i)
  }

  function WriteInput(listing: seq<Row>, rows: Rows, i: Input, newId: RowId): Result<Rows, Error> {
    match Find(listing, i)
    case Some(id) => if id in rows then Write(rows, id, Target(i)) else Ok(rows)
    case None => if newId in rows then Err(UniqueViolation) else Write(rows, newId, Target(i))
  }

  /** The first n inputs, one after the other. */
  function WriteInputs(listing: seq<Row>, rows: Rows, inputs: seq<Input>, newIds: seq<RowId>, n: nat)
    : Result<Rows, Error>
    requires n <= |inputs| == |newIds|
  {
    if n == 0 then Ok(rows)
    else
      match WriteInputs(listing, rows, inputs, newIds, n - 1)
      case Err(e) => Err(e)
      case Ok(now) => WriteInput(listing, now, inputs[n - 1], newIds[n - 1])
  }

  /** What the loop over the first n inputs reports; a repeated local id is noticed before a repeated external id. */
  function Duplicate(inputs: seq<Input>, n: nat): Option<Error>
    requires n <= |inputs|
  {
    if n == 0 then None
    else if Duplicate(inputs, n - 1).Some? then Duplicate(inputs, n - 1)
    else if exists k :: 0 <= k < n - 1 && LocalKey(inputs[k]) == LocalKey(inputs[n - 1]) then Some(LocalDuplicated)
    else if exists k :: 0 <= k < n - 1 && ExternalKey(inputs[k]) == ExternalKey(inputs[n - 1])
            then Some(ExternalDuplicated)
    else None
  }

  predicate Replaced(inputs: seq<Input>, m: Mapping) {
    exists k :: 0 <= k < |inputs| && LocalKey(inputs[k]) == (m.kind, m.local)
  }

  predicate Taken(inputs: seq<Input>, m: Mapping) {
    exists k :: 0 <= k < |inputs| && ExternalKey(inputs[k]) == (m.kind, m.external)
  }

  /** A listed mapping that stays holds an external id of the batch. */
  predicate Assigned(listing: seq<Row>, inputs: seq<Input>) {
    exists row :: row in listing && !Replaced(inputs, row.mapping) && Taken(inputs, row.mapping)
  }

  function UpsertTx(listing: seq<Row>, rows: Rows, inputs: seq<Input>, newIds: seq<RowId>, owned: bool)
    : Result<Rows, Error>
    requires |inputs| == |newIds|
  {
    if inputs == [] || |inputs| > MAX_BATCH then Err(BatchSizeInvalid)
    else if Duplicate(inputs, |inputs|).Some? then Err(Duplicate(inputs, |inputs|).value)
    else if Assigned(listing, inputs) then Err(ExternalAlreadyAssigned)
    else if !owned then Err(LocalEntityNotOwned)
    else WriteInputs(listing, rows, inputs, newIds, |inputs|)
  }

  // ----- The program

  class MappingTable {
    var rows: Rows

    constructor (rows: Rows)
      ensures this.rows == rows
    {
      this.rows := rows;
    }

    method CheckDuplicates(inputs: seq<Input>)
      returns (e: Option<Error>, localKeys: set<(Kind, string)>, externalKeys: set<(Kind, string)>)
      ensures e == Duplicate(inputs, |inputs|)
      ensures e.None? ==> forall m: Mapping :: (m.kind, m.local) in localKeys <==> Replaced(inputs, m)
      ensures e.None? ==> forall m: Mapping :: (m.kind, m.external) in externalKeys <==> Taken(inputs, m)
    {
      localKeys, externalKeys := {}, {};
      for i := 0 to |inputs|
        invariant Duplicate(inputs, i).None?
        invariant forall key :: key in localKeys <==> exists k :: 0 <= k < i && LocalKey(inputs[k]) == key
        invariant forall key :: key in externalKeys <==> exists k :: 0 <= k < i && ExternalKey(inputs[k]) == key
      {
        if LocalKey(inputs[i]) in localKeys {
          DuplicateStays(inputs, i + 1, |inputs|);
          return Some(LocalDuplicated), localKeys, externalKeys;
        }
        if ExternalKey(inputs[i]) in externalKeys {
          DuplicateStays(inputs, i + 1, |inputs|);
          return Some(ExternalDuplicated), localKeys, externalKeys;
        }
        localKeys := localKeys + {LocalKey(inputs[i])};
        externalKeys := externalKeys + {ExternalKey(inputs[i])};
      }
      e := None;
    }

    method Upsert(listing: seq<Row>, inputs: seq<Input>, newIds: seq<RowId>, owned: bool) returns (r: Option<Error>)
      requires |inputs| == |newIds|
      modifies this
      ensures match UpsertTx(listing, old(rows), inputs, newIds, owned)
              case Ok(now) => rows == now && r.None?
              case Err(e) => rows == old(rows) && r == Some(e)
    {
      if inputs == [] || |inputs| > MAX_BATCH {
        return Some(BatchSizeInvalid);
      }
      var e, localKeys, externalKeys := CheckDuplicates(inputs);
      if e.Some? {
        return e;
      }
      for i := 0 to |listing|
        invariant forall k :: 0 <= k < i ==> Replaced(inputs, listing[k].mapping) || !Taken(inputs, listing[k].mapping)
      {
        var m := listing[i].mapping;
        if (m.kind, m.local) in localKeys {
          continue;
        }
        if (m.kind, m.external) in externalKeys {
          assert listing[i] in listing;
          return Some(ExternalAlreadyAssigned);
        }
      }
      if !owned {
        return Some(LocalEntityNotOwned);
      }
      var before := rows;
      for i := 0 to |inputs|
        invariant WriteInputs(listing, before, inputs, newIds, i) == Ok(rows)
      {
        var now := WriteInput(listing, rows, inputs[i], newIds[i]);
        if now.Err? {
          FailureStays(listing, before, inputs, newIds, i + 1, |inputs|);
          rows := before;
          return Some(now.error);
        }
        rows := now.value;
      }
      r := None;
    }
  }

  lemma {:induction false} DuplicateStays(inputs: seq<Input>, i: nat, n: nat)
    requires i <= n <= |inputs| && Duplicate(inputs, i).Some?
    ensures Duplicate(inputs, n) == Duplicate(inputs, i)
  {
    if i < n {
      DuplicateStays(inputs, i, n - 1);
    }
  }

  lemma {:induction false} FailureStays(listing: seq<Row>, rows: Rows, inputs: seq<Input>, newIds: seq<RowId>, i: nat,
                                        n: nat)
    requires i <= n <= |inputs| == |newIds| && WriteInputs(listing, rows, inputs, newIds, i).Err?
    ensures WriteInputs(listing, rows, inputs, newIds, n) == WriteInputs(listing, rows, inputs, newIds, i)
  {
    if i < n {
      FailureStays(listing, rows, inputs, newIds, i, n - 1);
    }
  }

  // ----- A batch keeps the bijection, however old its listing is

  lemma {:induction false} WritesKeepBijection(listing: seq<Row>, rows: Rows, inputs: seq<Input>, newIds: seq<RowId>,
                                               n: nat)
    requires n <= |inputs| == |newIds| && Bijective(rows) && WriteInputs(listing, rows, inputs, newIds, n).Ok?
    ensures Bijective(WriteInputs(listing, rows, inputs, newIds, n).value)
  {
    if n > 0 {
      WritesKeepBijection(listing, rows, inputs, newIds, n - 1);
    }
  }

  lemma UpsertKeepsBijection(listing: seq<Row>, rows: Rows, inputs: seq<Input>, newIds: seq<RowId>, owned: bool)
    requires |inputs| == |newIds| && Bijective(rows) && UpsertTx(listing, rows, inputs, newIds, owned).Ok?
    ensures Bijective(UpsertTx(listing, rows, inputs, newIds, owned).value)
  {
    WritesKeepBijection(listing, rows, inputs, newIds, |inputs|);
  }

  // ----- What a batch on a current listing does

  /** No two of the first n inputs share a local or an external id of one mapping type. */
  predicate DistinctUpTo(inputs: seq<Input>, n: nat)
    requires n <= |inputs|
  {
    forall i, j :: 0 <= i < j < n ==> !Clash(Target(inputs[i]), Target(inputs[j]))
  }

  predicate Distinct(inputs: seq<Input>) {
    DistinctUpTo(inputs, |inputs|)
  }

  lemma {:induction false} NoDuplicate(inputs: seq<Input>, n: nat)
    requires n <= |inputs|
    ensures Duplicate(inputs, n).None? <==> DistinctUpTo(inputs, n)
  {
    if n > 0 {
      NoDuplicate(inputs, n - 1);
      if DistinctUpTo(inputs, n) {
        assert forall k :: 0 <= k < n - 1 ==> !Clash(Target(inputs[k]), Target(inputs[n - 1]));
      }
    }
  }

  predicate Current(listing: seq<Row>, rows: Rows) {
    && (forall row :: row in listing ==> row.id in rows && rows[row.id] == row.mapping)
    && (forall id :: id in rows ==> Row(id, rows[id]) in listing)
  }

  predicate FreshIds(rows: Rows, newIds: seq<RowId>) {
    && (forall k :: 0 <= k < |newIds| ==> newIds[k] !in rows)
    && (forall i, j :: 0 <= i < j < |newIds| ==> newIds[i] != newIds[j])
  }

  /** The row that input k writes. */
  function IdFor(listing: seq<Row>, inputs: seq<Input>, newIds: seq<RowId>, k: nat): RowId
    requires k < |inputs| == |newIds|
  {
    Find(listing, inputs[k]).GetOr(newIds[k])
  }

  lemma {:induction false} FindRow(listing: seq<Row>, i: Input)
    ensures match Find(listing, i)
            case Some(id) => exists row ::
              row in listing && row.id == id && row.mapping.kind == i.kind && row.mapping.local == i.local
            case None => forall row :: row in listing ==> !(row.mapping.kind == i.kind && row.mapping.local == i.local)
  {
    if listing != [] {
      FindRow(listing[1..], i);
      assert forall row :: row in listing <==> row == listing[0] || row in listing[1..];
    }
  }

  /** On a current listing, an input writes the row of its local id, or else a new row. */
  lemma RowOfInput(listing: seq<Row>, rows: Rows, inputs: seq<Input>, newIds: seq<RowId>, k: nat)
    requires k < |inputs| == |newIds| && Current(listing, rows) && Bijective(rows) && FreshIds(rows, newIds)
    ensures var id := IdFor(listing, inputs, newIds, k);
            && (Find(listing, inputs[k]).Some? <==> id in rows)
            && (forall other ::
                  (other in rows && rows[other].kind == inputs[k].kind && rows[other].local == inputs[k].local)
                  ==> other == id)
            && (id in rows ==> rows[id].kind == inputs[k].kind && rows[id].local == inputs[k].local)
  {
    FindRow(listing, inputs[k]);
    forall other | other in rows && rows[other].kind == inputs[k].kind && rows[other].local == inputs[k].local
      ensures other == IdFor(listing, inputs, newIds, k)
    {
      assert Row(other, rows[other]) in listing;
    }
  }

  lemma RowsDiffer(listing: seq<Row>, rows: Rows, inputs: seq<Input>, newIds: seq<RowId>, i: nat, j: nat)
    requires i < j < |inputs| == |newIds| && Current(listing, rows) && Bijective(rows) && FreshIds(rows, newIds)
    requires Distinct(inputs)
    ensures IdFor(listing, inputs, newIds, i) != IdFor(listing, inputs, newIds, j)
  {
    RowOfInput(listing, rows, inputs, newIds, i);
    RowOfInput(listing, rows, inputs, newIds, j);
    assert !Clash(Target(inputs[i]), Target(inputs[j]));
  }

  /** now is rows with the first n inputs written. */
  ghost predicate Written(listing: seq<Row>, rows: Rows, inputs: seq<Input>, newIds: seq<RowId>, n: nat, now: Rows)
    requires n <= |inputs| == |newIds|
  {
    && (forall id :: id in now <==> id in rows || exists k :: 0 <= k < n && IdFor(listing, inputs, newIds, k) == id)
    && (forall k :: 0 <= k < n ==>
          var id := IdFor(listing, inputs, newIds, k); id in now && now[id] == Target(inputs[k]))
    && (forall id ::
          id in rows && (forall k :: 0 <= k < n ==> IdFor(listing, inputs, newIds, k) != id) ==> now[id] == rows[id])
  }

  /** Input i takes an external id that the row of a later input still holds. */
  predicate StillHeld(rows: Rows, inputs: seq<Input>, i: nat)
    requires i < |inputs|
  {
    exists j, id :: i < j < |inputs| && id in rows && HeldBy(rows, inputs, i, j, id)
  }

  predicate HeldBy(rows: Rows, inputs: seq<Input>, i: nat, j: nat, id: RowId)
    requires i < j < |inputs|
  {
    && id in rows && rows[id].kind == inputs[i].kind == inputs[j].kind
    && rows[id].local == inputs[j].local && rows[id].external == inputs[i].external
  }

  ghost predicate Ready(listing: seq<Row>, rows: Rows, inputs: seq<Input>, newIds: seq<RowId>) {
    Current(listing, rows) && Bijective(rows) && FreshIds(rows, newIds) && Distinct(inputs)
      && !Assigned(listing, inputs)
  }

  lemma WrittenDoNotClash(listing: seq<Row>, rows: Rows, inputs: seq<Input>, newIds: seq<RowId>, n: nat, now: Rows,
                          k: nat)
    requires k < n < |inputs| == |newIds| && Distinct(inputs) && Written(listing, rows, inputs, newIds, n, now)
    ensures var id := IdFor(listing, inputs, newIds, k); id in now && !Clash(now[id], Target(inputs[n]))
  {
  }

  /** What occupies the local or external id of input n is the row of a later input. */
  lemma ClashIsHeld(listing: seq<Row>, rows: Rows, inputs: seq<Input>, newIds: seq<RowId>, n: nat, now: Rows,
                    other: RowId)
    requires n < |inputs| == |newIds| && Ready(listing, rows, inputs, newIds)
    requires Written(listing, rows, inputs, newIds, n, now)
    requires other in now && other != IdFor(listing, inputs, newIds, n) && Clash(now[other], Target(inputs[n]))
    ensures StillHeld(rows, inputs, n)
  {
    forall k | 0 <= k < n ensures IdFor(listing, inputs, newIds, k) != other {
      WrittenDoNotClash(listing, rows, inputs, newIds, n, now, k);
    }
    assert now[other] == rows[other];
    RowOfInput(listing, rows, inputs, newIds, n);
    var j := ReplacedBy(listing, rows, inputs, n, other);
    RowOfInput(listing, rows, inputs, newIds, j);
    assert HeldBy(rows, inputs, n, j, other);
  }

  lemma ReplacedBy(listing: seq<Row>, rows: Rows, inputs: seq<Input>, n: nat, other: RowId) returns (j: nat)
    requires n < |inputs| && other in rows && Current(listing, rows) && !Assigned(listing, inputs)
    requires (rows[other].kind, rows[other].external) == ExternalKey(inputs[n])
    ensures j < |inputs| && LocalKey(inputs[j]) == (rows[other].kind, rows[other].local)
  {
    assert Row(other, rows[other]) in listing;
    assert Taken(inputs, rows[other]);
    assert Replaced(inputs, rows[other]);
    j :| 0 <= j < |inputs| && LocalKey(inputs[j]) == (rows[other].kind, rows[other].local);
  }

  lemma HeldIsClash(listing: seq<Row>, rows: Rows, inputs: seq<Input>, newIds: seq<RowId>, n: nat, now: Rows, j: nat,
                    id: RowId)
    requires n < j < |inputs| == |newIds| && Ready(listing, rows, inputs, newIds)
    requires Written(listing, rows, inputs, newIds, n, now) && HeldBy(rows, inputs, n, j, id)
    ensures Occupied(now, IdFor(listing, inputs, newIds, n), Target(inputs[n]))
  {
    RowOfInput(listing, rows, inputs, newIds, j);
    forall k | 0 <= k < n + 1 ensures IdFor(listing, inputs, newIds, k) != id {
      RowsDiffer(listing, rows, inputs, newIds, k, j);
    }
    assert now[id] == rows[id];
  }

  /** The write of input n is refused exactly when a later row still holds its external id. */
  lemma RefusedWhenHeld(listing: seq<Row>, rows: Rows, inputs: seq<Input>, newIds: seq<RowId>, n: nat, now: Rows)
    requires n < |inputs| == |newIds| && Ready(listing, rows, inputs, newIds)
    requires Written(listing, rows, inputs, newIds, n, now)
    ensures Occupied(now, IdFor(listing, inputs, newIds, n), Target(inputs[n])) <==> StillHeld(rows, inputs, n)
  {
    hide Clash, HeldBy, Ready, Written, IdFor;
    var id := IdFor(listing, inputs, newIds, n);
    if other :| other in now && other != id && Clash(now[other], Target(inputs[n])) {
      ClashIsHeld(listing, rows, inputs, newIds, n, now, other);
    }
    if j, held :| n < j < |inputs| && HeldBy(rows, inputs, n, j, held) {
      HeldIsClash(listing, rows, inputs, newIds, n, now, j, held);
    }
  }

  lemma WrittenNext(listing: seq<Row>, rows: Rows, inputs: seq<Input>, newIds: seq<RowId>, n: nat, now: Rows)
    requires n < |inputs| == |newIds| && Written(listing, rows, inputs, newIds, n, now)
    requires forall k :: 0 <= k < n ==> IdFor(listing, inputs, newIds, k) != IdFor(listing, inputs, newIds, n)
    ensures Written(listing, rows, inputs, newIds, n + 1, now[IdFor(listing, inputs, newIds, n) := Target(inputs[n])])
  {
    hide IdFor, Target;
    var now' := now[IdFor(listing, inputs, newIds, n) := Target(inputs[n])];
    forall id ensures id in now' <==> id in rows || exists k ::
           0 <= k < n + 1 && IdFor(listing, inputs, newIds, k) == id {
      if id == IdFor(listing, inputs, newIds, n) {
        assert exists k :: 0 <= k < n + 1 && IdFor(listing, inputs, newIds, k) == id;
      }
    }
  }

  /** On a current listing, an input is written unless its external id is occupied. */
  lemma WriteOutcome(listing: seq<Row>, rows: Rows, inputs: seq<Input>, newIds: seq<RowId>, n: nat, now: Rows)
    requires n < |inputs| == |newIds| && Ready(listing, rows, inputs, newIds)
    requires Written(listing, rows, inputs, newIds, n, now)
    requires forall k :: 0 <= k < n ==> IdFor(listing, inputs, newIds, k) != IdFor(listing, inputs, newIds, n)
    ensures WriteInput(listing, now, inputs[n], newIds[n])
            == Write(now, IdFor(listing, inputs, newIds, n), Target(inputs[n]))
  {
    RowOfInput(listing, rows, inputs, newIds, n);
    hide Write, Target, Bijective, Current, Assigned, Distinct;
  }

  lemma WriteNext(listing: seq<Row>, rows: Rows, inputs: seq<Input>, newIds: seq<RowId>, n: nat, now: Rows)
    requires n < |inputs| == |newIds| && Ready(listing, rows, inputs, newIds)
    requires Written(listing, rows, inputs, newIds, n, now)
    ensures WriteInput(listing, now, inputs[n], newIds[n]).Ok? <==> !StillHeld(rows, inputs, n)
    ensures WriteInput(listing, now, inputs[n], newIds[n]).Ok? ==>
              Written(listing, rows, inputs, newIds, n + 1, WriteInput(listing, now, inputs[n], newIds[n]).value)
  {
    hide IdFor, WriteInput, Written, Occupied, StillHeld, Bijective, Current, FreshIds, Distinct, Assigned;
    RefusedWhenHeld(listing, rows, inputs, newIds, n, now);
    forall k | 0 <= k < n ensures IdFor(listing, inputs, newIds, k) != IdFor(listing, inputs, newIds, n) {
      RowsDiffer(listing, rows, inputs, newIds, k, n);
    }
    WriteOutcome(listing, rows, inputs, newIds, n, now);
    WrittenNext(listing, rows, inputs, newIds, n, now);
  }

  lemma WriteInputsStep(listing: seq<Row>, rows: Rows, inputs: seq<Input>, newIds: seq<RowId>, n: nat)
    requires 0 < n <= |inputs| == |newIds|
    ensures var before := WriteInputs(listing, rows, inputs, newIds, n - 1);
            WriteInputs(listing, rows, inputs, newIds, n)
            == if before.Err? then before else WriteInput(listing, before.value, inputs[n - 1], newIds[n - 1])
  {
    hide WriteInput;
  }

  predicate NoneStillHeld(rows: Rows, inputs: seq<Input>, n: nat)
    requires n <= |inputs|
  {
    forall i :: 0 <= i < n ==> !StillHeld(rows, inputs, i)
  }

  lemma WrittenNone(listing: seq<Row>, rows: Rows, inputs: seq<Input>, newIds: seq<RowId>)
    requires |inputs| == |newIds|
    ensures WriteInputs(listing, rows, inputs, newIds, 0) == Ok(rows)
    ensures Written(listing, rows, inputs, newIds, 0, rows)
  {
  }

  lemma {:induction false} WritesSucceedExactly(listing: seq<Row>, rows: Rows, inputs: seq<Input>, newIds: seq<RowId>,
                                                n: nat)
    requires n <= |inputs| == |newIds| && Ready(listing, rows, inputs, newIds)
    ensures WriteInputs(listing, rows, inputs, newIds, n).Ok? <==> NoneStillHeld(rows, inputs, n)
    ensures WriteInputs(listing, rows, inputs, newIds, n).Ok? ==>
              Written(listing, rows, inputs, newIds, n, WriteInputs(listing, rows, inputs, newIds, n).value)
  {
    hide WriteInput, WriteInputs, Written, StillHeld, Ready;
    if n == 0 {
      WrittenNone(listing, rows, inputs, newIds);
    } else {
      WritesSucceedExactly(listing, rows, inputs, newIds, n - 1);
      WriteInputsStep(listing, rows, inputs, newIds, n);
      if WriteInputs(listing, rows, inputs, newIds, n - 1).Ok? {
        WriteNext(listing, rows, inputs, newIds, n - 1, WriteInputs(listing, rows, inputs, newIds, n - 1).value);
      }
    }
  }

  // ----- Main results

  /**
   With a current listing the batch succeeds exactly when it has an allowed size, its inputs are
   distinct, no mapping that stays holds one of its external ids, the local entities are owned, and
   no input takes an external id that the row of a later input still holds.
   */
  lemma UpsertSucceedsExactly(listing: seq<Row>, rows: Rows, inputs: seq<Input>, newIds: seq<RowId>, owned: bool)
    requires |inputs| == |newIds| && Current(listing, rows) && Bijective(rows) && FreshIds(rows, newIds)
    ensures UpsertTx(listing, rows, inputs, newIds, owned).Ok? <==>
            && 0 < |inputs| <= MAX_BATCH && Distinct(inputs) && owned
            && (forall id :: id in rows && Taken(inputs, rows[id]) ==> Replaced(inputs, rows[id]))
            && NoneStillHeld(rows, inputs, |inputs|)
  {
    NoDuplicate(inputs, |inputs|);
    assert Assigned(listing, inputs) <==> exists id ::
           id in rows && !Replaced(inputs, rows[id]) && Taken(inputs, rows[id]) by {
      forall id | id in rows ensures Row(id, rows[id]) in listing {}
    }
    if Ready(listing, rows, inputs, newIds) {
      WritesSucceedExactly(listing, rows, inputs, newIds, |inputs|);
    }
  }

  /**
   After a successful batch the table holds exactly the mappings of the batch, active, and those
   mappings whose local id is not in the batch; a replaced mapping keeps its row.
   */
  lemma UpsertContents(listing: seq<Row>, rows: Rows, inputs: seq<Input>, newIds: seq<RowId>, owned: bool)
    requires |inputs| == |newIds| && Current(listing, rows) && Bijective(rows) && FreshIds(rows, newIds)
    requires UpsertTx(listing, rows, inputs, newIds, owned).Ok?
    ensures var now := UpsertTx(listing, rows, inputs, newIds, owned).value;
            && (forall k :: 0 <= k < |inputs| ==> exists id :: id in now && now[id] == Target(inputs[k]))
            && (forall id :: id in now ==>
                  || (exists k :: 0 <= k < |inputs| && now[id] == Target(inputs[k]))
                  || (id in rows && now[id] == rows[id] && !Replaced(inputs, rows[id])))
            && (forall id :: id in rows ==>
                  id in now && now[id].kind == rows[id].kind && now[id].local == rows[id].local)
            && (forall id :: id in rows && !Replaced(inputs, rows[id]) ==> now[id] == rows[id])
  {
    NoDuplicate(inputs, |inputs|);
    WritesSucceedExactly(listing, rows, inputs, newIds, |inputs|);
    forall k | 0 <= k < |inputs|
      ensures var id := IdFor(listing, inputs, newIds, k);
              && (id in rows ==> rows[id].kind == inputs[k].kind && rows[id].local == inputs[k].local)
              && forall other ::
                   other in rows && LocalKey(inputs[k]) == (rows[other].kind, rows[other].local) ==> other == id
    {
      RowOfInput(listing, rows, inputs, newIds, k);
    }
  }

  /** The two inputs exchange the external ids of the rows a and b. */
  ghost predicate Exchange(rows: Rows, i: Input, j: Input, a: RowId, b: RowId) {
    && a in rows && b in rows && a != b && rows[a].kind == rows[b].kind == i.kind == j.kind
    && i.local == rows[a].local && i.external == rows[b].external
    && j.local == rows[b].local && j.external == rows[a].external
  }

  /**
   Two mappings never exchange their external ids in one batch: an exchange passes every check that
   comes before the transaction, and its result would be a bijection, yet the transaction fails.
   */
  lemma ExchangeRollsBack(listing: seq<Row>, rows: Rows, i: Input, j: Input, newIds: seq<RowId>, a: RowId, b: RowId)
    requires |newIds| == 2 && Current(listing, rows) && Bijective(rows) && FreshIds(rows, newIds)
    requires Exchange(rows, i, j, a, b)
    ensures Duplicate([i, j], 2).None? && !Assigned(listing, [i, j]) && Bijective(rows[a := Target(i)][b := Target(j)])
    ensures UpsertTx(listing, rows, [i, j], newIds, true).Err?
  {
    var inputs := [i, j];
    ExchangeBijective(rows, i, j, a, b);
    ExchangeUnassigned(listing, rows, i, j, a, b);
    hide Bijective, Assigned, UpsertTx, Clash;
    NoDuplicate(inputs, 2);
    UpsertSucceedsExactly(listing, rows, inputs, newIds, true);
    assert HeldBy(rows, inputs, 0, 1, b);
    assert StillHeld(rows, inputs, 0);
  }

  lemma ExchangeBijective(rows: Rows, i: Input, j: Input, a: RowId, b: RowId)
    requires Bijective(rows) && Exchange(rows, i, j, a, b)
    ensures Bijective(rows[a := Target(i)][b := Target(j)]) && DistinctUpTo([i, j], 2)
  {
    assert !Clash(rows[a], rows[b]);
  }

  lemma ExchangeUnassigned(listing: seq<Row>, rows: Rows, i: Input, j: Input, a: RowId, b: RowId)
    requires Current(listing, rows) && Bijective(rows) && Exchange(rows, i, j, a, b)
    ensures !Assigned(listing, [i, j])
  {
    forall row | row in listing && Taken([i, j], row.mapping) ensures Replaced([i, j], row.mapping) {
      assert rows[row.id] == row.mapping;
      assert LocalKey([i, j][0]) == (rows[a].kind, rows[a].local)
             && LocalKey([i, j][1]) == (rows[b].kind, rows[b].local);
    }
  }
}
