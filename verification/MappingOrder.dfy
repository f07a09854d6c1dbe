/** In which order the inputs of a batch upsert can be written at all. */
module MappingOrder {
  import opened Options
  import opened ChannelMapping

  /** Input a takes the external id that the row of another input b holds. */
  ghost predicate Takes(rows: Rows, a: Input, b: Input) {
    a != b && a.kind == b.kind
    && exists id ::
         id in rows && rows[id].kind == a.kind && rows[id].local == b.local && rows[id].external == a.external
  }

  /** Each input of the sequence takes the external id of the next one's row. */
  ghost predicate TakesAlong(rows: Rows, p: seq<Input>) {
    forall i :: 0 <= i < |p| - 1 ==> Takes(rows, p[i], p[i + 1])
  }

  ghost predicate CycleIn(rows: Rows, inputs: seq<Input>, p: seq<Input>) {
    |p| >= 2 && p[0] == p[|p| - 1] && TakesAlong(rows, p) && forall x :: x in p ==> x in inputs
  }

  /** Some inputs pass their rows' external ids around in a circle. */
  ghost predicate Cyclic(rows: Rows, inputs: seq<Input>) {
    exists p :: CycleIn(rows, inputs, p)
  }

  ghost predicate Reorders(inputs: seq<Input>, order: seq<Input>) {
    multiset(order) == multiset(inputs)
  }

  /** No input comes before the one whose row it waits for. */
  ghost predicate Respects(rows: Rows, order: seq<Input>) {
    forall i, j :: 0 <= i < j < |order| ==> !Takes(rows, order[i], order[j])
  }

  // ----- Success in one order

  lemma RespectsMeansNoneHeld(rows: Rows, order: seq<Input>)
    requires Distinct(order)
    ensures Respects(rows, order) <==> NoneStillHeld(rows, order, |order|)
  {
    forall i, j | 0 <= i < j < |order|
      ensures Takes(rows, order[i], order[j]) <==> exists id :: id in rows && HeldBy(rows, order, i, j, id)
    {
      assert !Clash(Target(order[i]), Target(order[j]));
      if id :| id in rows && rows[id].kind == order[i].kind == order[j].kind && rows[id].local == order[j].local
               && rows[id].external == order[i].external {
        assert HeldBy(rows, order, i, j, id);
      }
    }
    hide HeldBy, Takes;
    if Respects(rows, order) {
      forall i | 0 <= i < |order| ensures !StillHeld(rows, order, i) {
      }
    }
    if NoneStillHeld(rows, order, |order|) {
      forall i, j | 0 <= i < j < |order| ensures !Takes(rows, order[i], order[j]) {
        assert !StillHeld(rows, order, i);
      }
    }
  }

  // ----- A circle has no order

  lemma {:induction false} LaterInOrder(rows: Rows, order: seq<Input>, p: seq<Input>, i: nat)
    requires Respects(rows, order) && TakesAlong(rows, p) && |p| >= 2
    requires forall x :: x in p ==> x in order
    requires i < |order| && order[i] == p[0]
    ensures exists k :: 0 <= k < i && order[k] == p[|p| - 1]
    decreases |p|
  {
    assert p[1] in p;
    var j :| 0 <= j < |order| && order[j] == p[1];
    assert Takes(rows, p[0], p[1]);
    assert j < i;
    if |p| > 2 {
      assert forall k :: 0 <= k < |p| - 1 ==> p[1..][k] == p[k + 1];
      LaterInOrder(rows, order, p[1..], j);
    }
  }

  lemma {:induction false} NoOrderForCycle(rows: Rows, order: seq<Input>, p: seq<Input>, i: nat)
    requires Respects(rows, order) && CycleIn(rows, order, p)
    requires i < |order| && order[i] == p[0]
    ensures false
    decreases i
  {
    LaterInOrder(rows, order, p, i);
    var k :| 0 <= k < i && order[k] == p[|p| - 1];
    NoOrderForCycle(rows, order, p, k);
  }

  lemma CyclicHasNoOrder(rows: Rows, order: seq<Input>)
    requires Cyclic(rows, order)
    ensures !Respects(rows, order)
  {
    var p :| CycleIn(rows, order, p);
    assert p[0] in p;
    var i :| 0 <= i < |order| && order[i] == p[0];
    if Respects(rows, order) {
      NoOrderForCycle(rows, order, p, i);
    }
  }

  // ----- Without a circle there is an order

  ghost function Unseen(inputs: seq<Input>, p: seq<Input>): set<Input> {
    set x | x in inputs && x !in p
  }

  lemma UnseenShrinks(inputs: seq<Input>, p: seq<Input>, b: Input)
    requires b in inputs && b !in p
    ensures Unseen(inputs, p + [b]) < Unseen(inputs, p)
  {
    assert b in Unseen(inputs, p) && b !in Unseen(inputs, p + [b]);
  }

  /** From the end of a path without repetition, some input that waits for no other can be reached. */
  lemma {:induction false} FreeInput(rows: Rows, inputs: seq<Input>, p: seq<Input>) returns (free: Input)
    requires !Cyclic(rows, inputs) && p != [] && TakesAlong(rows, p) && forall x :: x in p ==> x in inputs
    ensures free in inputs && forall b :: b in inputs ==> !Takes(rows, free, b)
    decreases Unseen(inputs, p)
  {
    var last := p[|p| - 1];
    assert last in p;
    if b :| b in inputs && Takes(rows, last, b) {
      var longer := p + [b];
      assert TakesAlong(rows, longer) by {
        hide Takes;
      }
      if i :| 0 <= i < |p| && p[i] == b {
        CycleFrom(rows, inputs, longer, i);
        assert false;
      } else {
        UnseenShrinks(inputs, p, b);
        free := FreeInput(rows, inputs, longer);
      }
    } else {
      free := last;
    }
  }

  lemma CycleFrom(rows: Rows, inputs: seq<Input>, p: seq<Input>, i: nat)
    requires TakesAlong(rows, p) && i < |p| - 1 && p[i] == p[|p| - 1] && forall x :: x in p ==> x in inputs
    ensures Cyclic(rows, inputs)
  {
    hide Takes;
    var c := p[i..];
    assert forall k :: 0 <= k < |c| ==> c[k] == p[i + k];
    assert CycleIn(rows, inputs, c);
  }

  lemma {:induction false} OrderExists(rows: Rows, inputs: seq<Input>) returns (order: seq<Input>)
    requires !Cyclic(rows, inputs)
    ensures Reorders(inputs, order) && Respects(rows, order)
    decreases |inputs|
  {
    hide Cyclic, Respects, Takes;
    if inputs == [] {
      order := [];
      NothingToRespect(rows);
    } else {
      NoSteps(rows, inputs[0]);
      var free := FreeInput(rows, inputs, [inputs[0]]);
      var others := Removed(inputs, free);
      if Cyclic(rows, others) {
        CycleWithin(rows, inputs, others);
        assert false;
      }
      var rest := OrderExists(rows, others);
      order := [free] + rest;
      FirstIsFree(rows, free, rest, inputs);
    }
  }

  lemma NothingToRespect(rows: Rows)
    ensures Respects(rows, [])
  {
  }

  lemma NoSteps(rows: Rows, x: Input)
    ensures TakesAlong(rows, [x])
  {
  }

  lemma Removed(inputs: seq<Input>, x: Input) returns (others: seq<Input>)
    requires x in inputs
    ensures multiset(inputs) == multiset{x} + multiset(others) && |others| == |inputs| - 1
    ensures forall y :: y in others ==> y in inputs
  {
    var i :| 0 <= i < |inputs| && inputs[i] == x;
    others := inputs[..i] + inputs[i + 1..];
    assert inputs == inputs[..i] + [x] + inputs[i + 1..];
  }

  lemma CycleWithin(rows: Rows, inputs: seq<Input>, others: seq<Input>)
    requires Cyclic(rows, others) && forall x :: x in others ==> x in inputs
    ensures Cyclic(rows, inputs)
  {
    hide Takes;
    var p :| CycleIn(rows, others, p);
    assert CycleIn(rows, inputs, p);
  }

  lemma FirstIsFree(rows: Rows, free: Input, rest: seq<Input>, inputs: seq<Input>)
    requires Respects(rows, rest) && multiset(inputs) == multiset{free} + multiset(rest)
    requires forall b :: b in inputs ==> !Takes(rows, free, b)
    ensures Respects(rows, [free] + rest)
  {
    hide Takes;
    var order := [free] + rest;
    forall i, j | 0 <= i < j < |order| ensures !Takes(rows, order[i], order[j]) {
      if i == 0 {
        assert order[j] in multiset(rest);
        assert order[j] in multiset(inputs);
      }
    }
  }

  // ----- Reordering keeps what the checks look at

  lemma SameMembers(inputs: seq<Input>, order: seq<Input>)
    requires Reorders(inputs, order)
    ensures |order| == |inputs| && forall x :: x in order <==> x in inputs
  {
    assert |multiset(order)| == |order| && |multiset(inputs)| == |inputs|;
    assert forall x :: x in order <==> x in multiset(order);
    assert forall x :: x in inputs <==> x in multiset(inputs);
  }

  lemma {:induction false} OnceEach(inputs: seq<Input>, x: Input)
    requires forall i, j :: 0 <= i < j < |inputs| ==> inputs[i] != inputs[j]
    ensures multiset(inputs)[x] <= 1
  {
    if inputs != [] {
      var init, last := inputs[..|inputs| - 1], inputs[|inputs| - 1];
      OnceEach(init, x);
      assert inputs == init + [last];
      assert multiset(inputs) == multiset(init) + multiset{last};
      assert last !in init;
    }
  }

  lemma TwiceCounted(order: seq<Input>, i: nat, j: nat)
    requires i < j < |order| && order[i] == order[j]
    ensures multiset(order)[order[i]] >= 2
  {
    assert order == order[..j] + order[j..];
    assert order[..j][i] == order[i] && order[j..][0] == order[j];
    assert multiset(order) == multiset(order[..j]) + multiset(order[j..]);
  }

  lemma DistinctReordered(inputs: seq<Input>, order: seq<Input>)
    requires Reorders(inputs, order) && Distinct(inputs)
    ensures Distinct(order)
  {
    SameMembers(inputs, order);
    forall i, j | 0 <= i < j < |order| ensures !Clash(Target(order[i]), Target(order[j])) {
      if order[i] == order[j] {
        TwiceCounted(order, i, j);
        assert forall a, b :: 0 <= a < b < |inputs| ==> inputs[a] != inputs[b] by {
          forall a, b | 0 <= a < b < |inputs| ensures inputs[a] != inputs[b] {
            assert !Clash(Target(inputs[a]), Target(inputs[b]));
          }
        }
        OnceEach(inputs, order[i]);
        assert false;
      } else {
        assert order[i] in inputs && order[j] in inputs;
        var a :| 0 <= a < |inputs| && inputs[a] == order[i];
        var b :| 0 <= b < |inputs| && inputs[b] == order[j];
        assert if a < b then !Clash(Target(inputs[a]), Target(inputs[b]))
               else !Clash(Target(inputs[b]), Target(inputs[a]));
      }
    }
  }

  lemma AssignedReordered(listing: seq<Row>, inputs: seq<Input>, order: seq<Input>)
    requires Reorders(inputs, order)
    ensures Assigned(listing, order) == Assigned(listing, inputs)
  {
    SameMembers(inputs, order);
    forall m ensures Replaced(inputs, m) <==> Replaced(order, m) {
      ReplacedByMember(inputs, m);
      ReplacedByMember(order, m);
    }
    forall m ensures Taken(inputs, m) <==> Taken(order, m) {
      TakenByMember(inputs, m);
      TakenByMember(order, m);
    }
    hide Replaced, Taken, Reorders;
  }

  lemma ReplacedByMember(inputs: seq<Input>, m: Mapping)
    ensures Replaced(inputs, m) <==> exists x :: x in inputs && LocalKey(x) == (m.kind, m.local)
  {
    if x :| x in inputs && LocalKey(x) == (m.kind, m.local) {
      var k :| 0 <= k < |inputs| && inputs[k] == x;
    }
  }

  lemma TakenByMember(inputs: seq<Input>, m: Mapping)
    ensures Taken(inputs, m) <==> exists x :: x in inputs && ExternalKey(x) == (m.kind, m.external)
  {
    if x :| x in inputs && ExternalKey(x) == (m.kind, m.external) {
      var k :| 0 <= k < |inputs| && inputs[k] == x;
    }
  }

  // ----- Main result

  lemma OrderSucceeds(listing: seq<Row>, rows: Rows, inputs: seq<Input>, order: seq<Input>, newIds: seq<RowId>)
    requires |inputs| == |newIds| && Ready(listing, rows, inputs, newIds) && 0 < |inputs| <= MAX_BATCH
    requires Reorders(inputs, order)
    ensures |order| == |newIds|
    ensures UpsertTx(listing, rows, order, newIds, true).Ok? <==> Respects(rows, order)
  {
    SameMembers(inputs, order);
    DistinctReordered(inputs, order);
    AssignedReordered(listing, inputs, order);
    UpsertSucceedsExactly(listing, rows, order, newIds, true);
    assert forall id :: id in rows ==> Row(id, rows[id]) in listing;
    hide UpsertTx, Respects;
    RespectsMeansNoneHeld(rows, order);
  }

  ghost predicate Succeeds(listing: seq<Row>, rows: Rows, order: seq<Input>, newIds: seq<RowId>) {
    |order| == |newIds| && UpsertTx(listing, rows, order, newIds, true).Ok?
  }

  /**
   A batch that passes the checks can be written in some order exactly when its inputs do not pass
   external ids around in a circle. With a circle of any length it fails in every order.
   */
  lemma SomeOrderSucceeds(listing: seq<Row>, rows: Rows, inputs: seq<Input>, newIds: seq<RowId>)
    requires |inputs| == |newIds| && Ready(listing, rows, inputs, newIds) && 0 < |inputs| <= MAX_BATCH
    ensures (exists order :: Reorders(inputs, order) && Succeeds(listing, rows, order, newIds))
            <==> !Cyclic(rows, inputs)
  {
    hide UpsertTx, Ready, Respects, Takes;
    if order :| Reorders(inputs, order) && Succeeds(listing, rows, order, newIds) {
      OrderSucceeds(listing, rows, inputs, order, newIds);
      SameMembers(inputs, order);
      if Cyclic(rows, inputs) {
        CycleWithin(rows, order, inputs);
        CyclicHasNoOrder(rows, order);
      }
    }
    if !Cyclic(rows, inputs) {
      var order := OrderExists(rows, inputs);
      OrderSucceeds(listing, rows, inputs, order, newIds);
      assert Reorders(inputs, order) && Succeeds(listing, rows, order, newIds);
    }
  }
}
