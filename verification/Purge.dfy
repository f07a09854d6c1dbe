/** The purge itself: collect, order, delete relation by relation. */
module Purge {
  import opened Options
  import opened ForeignKeys
  import opened PurgeClosure
  import opened PurgeOrder

  datatype PurgeError = UnsafeRelation(oid: Oid) | CyclicReferences

  /** The closure rows of one relation. */
  function RowsOf(nodes: set<Node>, oid: Oid): set<Node> {
    set n | n in nodes && n.oid == oid
  }

  /** The closure rows of the given relations. */
  function RowsOfAll(nodes: set<Node>, oids: seq<Oid>): set<Node> {
    set n | n in nodes && n.oid in oids
  }

  /** now has lost rows since then, and changed none. */
  ghost predicate Shrunk(before: Tables, now: Tables) {
    forall n :: Present(now, n) ==> Present(before, n) && now[n.oid][n.id] == before[n.oid][n.id]
  }

  /**
   Deleting along the order never leaves a dangling reference: not after a whole statement, and not
   after any part of one. The rows may be deleted from tables that have already lost other rows
   since the closure was collected.
   */
  lemma IntegrityDuringPurge(schema: Schema, before: Tables, now: Tables, c: Closure, order: seq<Oid>,
                             k: nat, part: set<Node>)
    requires Closed(schema, before, c.nodes) && EdgesMatchRows(schema, before, c)
    requires DeletionOrderOf(c, order)
    requires Shrunk(before, now) && Integrity(schema, now)
    requires k <= |order| && (if k < |order| then part <= RowsOf(c.nodes, order[k]) else part == {})
    ensures Integrity(schema, Without(now, RowsOfAll(c.nodes, order[..k]) + part))
  {
    var gone := RowsOfAll(c.nodes, order[..k]) + part;
    var left := Without(now, gone);
    forall key, childId, parentId | key in schema.keys && RefersThrough(left, key, childId, parentId)
      ensures Present(left, Node(key.parent, parentId))
    {
      var child, parent := Node(key.child, childId), Node(key.parent, parentId);
      assert Present(left, child);
      RefersWithout(now, gone, key, childId, parentId);
      assert Present(now, parent);
      if parent in gone {
        assert RefersThrough(before, key, childId, parentId);
        assert Refers(schema, before, child, parent);
        assert Edge(parent.oid, child.oid) in c.edges;
        DeletedBefore(c, order, k, parent.oid, child.oid);
        assert false;
      }
    }
  }

  /** When the relation at position k or earlier is being deleted, its children are already gone. */
  lemma DeletedBefore(c: Closure, order: seq<Oid>, k: nat, parent: Oid, child: Oid)
    requires DeletionOrderOf(c, order) && Edge(parent, child) in c.edges
    requires k <= |order| && (parent in order[..k] || (k < |order| && parent == order[k]))
    ensures child in order[..k]
  {
    var j :| 0 <= j < |order| && j <= k && order[j] == parent;
    assert child in order[..j];
    var i :| 0 <= i < j && order[..j][i] == child;
    assert order[..k][i] == child;
  }

  lemma DeleteNext(now: Tables, nodes: set<Node>, order: seq<Oid>, k: nat)
    requires k < |order|
    ensures Without(Without(now, RowsOfAll(nodes, order[..k])), RowsOf(nodes, order[k]))
         == Without(now, RowsOfAll(nodes, order[..k + 1]))
  {
    WithoutTwice(now, RowsOfAll(nodes, order[..k]), RowsOf(nodes, order[k]));
    assert order[..k + 1] == order[..k] + [order[k]];
    assert RowsOfAll(nodes, order[..k]) + RowsOf(nodes, order[k]) == RowsOfAll(nodes, order[..k + 1]);
  }

  lemma WithoutNothing(tables: Tables)
    ensures Without(tables, {}) == tables
  {
    forall oid | oid in tables ensures Without(tables, {})[oid] == tables[oid] {
      forall id ensures id in Without(tables, {})[oid] <==> id in tables[oid] {
        assert Present(Without(tables, {}), Node(oid, id)) <==> Present(tables, Node(oid, id));
      }
      forall id | id in tables[oid] ensures Without(tables, {})[oid][id] == tables[oid][id] {
        assert Present(Without(tables, {}), Node(oid, id));
      }
    }
  }

  /** A walk over relations, each step from a row to a row that refers to it, that returns to its start. */
  ghost predicate CyclicRows(schema: Schema, tables: Tables, nodes: set<Node>) {
    exists p: seq<Oid> :: |p| >= 2 && p[0] == p[|p| - 1] && RowPath(schema, tables, nodes, p)
  }

  ghost predicate RowPath(schema: Schema, tables: Tables, nodes: set<Node>, p: seq<Oid>) {
    forall i :: 0 <= i < |p| - 1 ==> RowStep(schema, tables, nodes, p[i], p[i + 1])
  }

  ghost predicate RowStep(schema: Schema, tables: Tables, nodes: set<Node>, from: Oid, to: Oid) {
    exists child, parent :: child in nodes && parent in nodes && Refers(schema, tables, child, parent)
                            && parent.oid == from && child.oid == to
  }

  /** The recorded graph has a cycle exactly when the collected rows refer to each other in a circle. */
  lemma CyclesMatchRows(schema: Schema, tables: Tables, c: Closure)
    requires EdgesMatchRows(schema, tables, c)
    ensures HasCycle(c.edges) <==> CyclicRows(schema, tables, c.nodes)
  {
    if p :| Cycle(c.edges, p) {
      forall i | 0 <= i < |p| - 1 ensures RowStep(schema, tables, c.nodes, p[i], p[i + 1]) {
        assert Edge(p[i], p[i + 1]) in c.edges;
      }
      assert RowPath(schema, tables, c.nodes, p);
    }
    if p: seq<Oid> :| |p| >= 2 && p[0] == p[|p| - 1] && RowPath(schema, tables, c.nodes, p) {
      forall i | 0 <= i < |p| - 1 ensures Edge(p[i], p[i + 1]) in c.edges {
        assert RowStep(schema, tables, c.nodes, p[i], p[i + 1]);
      }
      assert Cycle(c.edges, p);
    }
  }

  class Database {
    const schema: Schema
    var tables: Tables

    constructor (schema: Schema, tables: Tables)
      ensures this.schema == schema && this.tables == tables
    {
      this.schema, this.tables := schema, tables;
    }

    /** delete from relation where its primary key is any of the ids */
    method DeleteRows(oid: Oid, rows: set<Node>)
      requires Integrity(schema, Without(tables, rows))
      modifies this
      ensures tables == Without(old(tables), rows) && Integrity(schema, tables)
    {
      tables := Without(tables, rows);
    }

    /**
     One transaction. scoped are the rows that the scope-based deletes remove between collecting
     the closure and deleting it; the database keeps its foreign keys through those deletes.
     */
    method Purge(root: Oid, productIds: set<Id>, scoped: set<Node>) returns (r: Result<set<Node>, PurgeError>)
      requires Integrity(schema, Without(tables, scoped))
      modifies this
      ensures r.Ok? ==>
                && IsClosure(schema, old(tables), Seeds(root, productIds), r.value)
                && tables == Without(old(tables), scoped + r.value)
                && Integrity(schema, tables)
                && !CyclicRows(schema, old(tables), r.value)
                && forall oid :: Inspected(schema, root, r.value, oid) ==> oid in schema.purgeable
      ensures r.Err? ==> tables == old(tables)
      ensures r == Err(CyclicReferences) ==>
                exists nodes :: && IsClosure(schema, tables, Seeds(root, productIds), nodes)
                                && CyclicRows(schema, tables, nodes)
      ensures r.Err? && r.error.UnsafeRelation? ==>
                && r.error.oid !in schema.purgeable
                && forall nodes :: IsClosure(schema, tables, Seeds(root, productIds), nodes)
                                   ==> Inspected(schema, root, nodes, r.error.oid)
    {
      var collected := CollectClosure(schema, tables, root, productIds);
      if collected.Err? {
        return Err(UnsafeRelation(collected.error));
      }
      var c := collected.value;
      var before := tables;
      tables := Without(tables, scoped);
      ghost var now := tables;

      EdgeChildrenPopulated(schema, before, c);
      CyclesMatchRows(schema, before, c);
      var planned := DeletionOrder(c);
      if planned.None? {
        tables := before;
        return Err(CyclicReferences);
      }
      var order := planned.value;
      assert RowsOfAll(c.nodes, order[..0]) == {};
      WithoutNothing(now);
      for k := 0 to |order|
        invariant tables == Without(now, RowsOfAll(c.nodes, order[..k]))
        invariant Integrity(schema, tables)
      {
        DeleteNext(now, c.nodes, order, k);
        IntegrityDuringPurge(schema, before, now, c, order, k + 1, {});
        assert RowsOfAll(c.nodes, order[..k + 1]) + {} == RowsOfAll(c.nodes, order[..k + 1]);
        DeleteRows(order[k], RowsOf(c.nodes, order[k]));
      }
      assert order[..|order|] == order;
      assert RowsOfAll(c.nodes, order) == c.nodes;
      WithoutTwice(before, scoped, c.nodes);
      r := Ok(c.nodes);
    }
  }

  lemma EdgeChildrenPopulated(schema: Schema, tables: Tables, c: Closure)
    requires EdgesMatchRows(schema, tables, c)
    ensures forall e :: e in c.edges ==> e.child in Populated(c.nodes)
  {
    forall e | e in c.edges ensures e.child in Populated(c.nodes) {
      var child, parent :| child in c.nodes && parent in c.nodes && Refers(schema, tables, child, parent)
                           && parent.oid == e.parent && child.oid == e.child;
    }
  }
}
