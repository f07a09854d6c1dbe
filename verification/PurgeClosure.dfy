/** The worklist that collects every row the purge has to delete. */
module PurgeClosure {
  import opened Options
  import opened ForeignKeys

  /** Rows of relation child refer to rows of relation parent. */
  datatype Edge = Edge(parent: Oid, child: Oid)

  /** The relations in the order they were met, the rows found, and the recorded relation graph. */
  datatype Closure = Closure(relations: seq<Oid>, nodes: set<Node>, edges: seq<Edge>)

  datatype Batch = Batch(relation: Oid, ids: set<Id>)

  function ChildKeys(keys: seq<ForeignKey>, parent: Oid): (r: seq<ForeignKey>)
    ensures forall key :: key in r <==> key in keys && key.parent == parent
  {
    if keys == [] then []
    else (if keys[0].parent == parent then [keys[0]] else []) + ChildKeys(keys[1..], parent)
  }

  /** The rows whose column holds one of the parent ids. */
  function MatchingRows(tables: Tables, key: ForeignKey, parents: set<Id>): (r: set<Id>)
    ensures forall id :: id in r <==> exists p :: p in parents && RefersThrough(tables, key, id, p)
  {
    if key.child !in tables then {}
    else set id | id in tables[key.child]
                  && key.column in tables[key.child][id].columns
                  && tables[key.child][id].columns[key.column] in parents
  }

  predicate Distinct<T(==)>(s: seq<T>) {
    forall i, j :: 0 <= i < j < |s| ==> s[i] != s[j]
  }

  /** The recorded graph has an edge exactly where two collected rows refer to each other. */
  ghost predicate EdgesMatchRows(schema: Schema, tables: Tables, c: Closure) {
    && (forall child, parent :: parent in c.nodes && Refers(schema, tables, child, parent)
                                ==> Edge(parent.oid, child.oid) in c.edges)
    && EdgesHaveRows(schema, tables, c)
  }

  ghost predicate EdgesHaveRows(schema: Schema, tables: Tables, c: Closure) {
    forall e :: e in c.edges ==>
      exists child, parent :: child in c.nodes && parent in c.nodes && Refers(schema, tables, child, parent)
                              && parent.oid == e.parent && child.oid == e.child
  }

  ghost predicate WellFormed(root: Oid, c: Closure) {
    && Distinct(c.relations)
    && root in c.relations
    && (forall n :: n in c.nodes ==> n.oid in c.relations)
    && (forall e :: e in c.edges ==> e.parent in c.relations && e.child in c.relations)
  }

  /** A relation the walk looks at: the root, or one with a foreign key to a relation with rows to delete. */
  ghost predicate Inspected(schema: Schema, root: Oid, nodes: set<Node>, oid: Oid) {
    oid == root || exists key, n :: key in schema.keys && key.child == oid && n in nodes && n.oid == key.parent
  }

  // ----- Invariants of the walk

  ghost function AllRows(tables: Tables): set<Node> {
    set oid, id | oid in tables && id in tables[oid] :: Node(oid, id)
  }

  /** Nothing is collected without need. */
  ghost predicate Needed(schema: Schema, tables: Tables, seeds: set<Node>, nodes: set<Node>) {
    forall others: set<Node> :: seeds <= others && Closed(schema, tables, others) ==> nodes <= others
  }

  /** The foreign key has been followed from the row n. */
  ghost predicate Followed(schema: Schema, tables: Tables, c: Closure, key: ForeignKey, n: Node) {
    && key.child in schema.purgeable
    && forall child :: RefersThrough(tables, key, child, n.id) ==>
         Node(key.child, child) in c.nodes && Edge(n.oid, key.child) in c.edges
  }

  ghost predicate FollowedAll(schema: Schema, tables: Tables, c: Closure, done: set<Node>) {
    forall key, n :: n in done && key in schema.keys && key.parent == n.oid ==> Followed(schema, tables, c, key, n)
  }

  predicate Queued(queue: seq<Batch>, from: nat, n: Node) {
    exists j :: from <= j < |queue| && queue[j].relation == n.oid && n.id in queue[j].ids
  }

  ghost predicate QueueCovers(queue: seq<Batch>, from: nat, nodes: set<Node>, done: set<Node>) {
    forall n :: n in nodes ==> n in done || Queued(queue, from, n)
  }

  ghost predicate QueueWithin(queue: seq<Batch>, c: Closure) {
    forall j, id :: 0 <= j < |queue| && id in queue[j].ids ==> Node(queue[j].relation, id) in c.nodes
  }

  /** What holds of the closure at every point of the walk. */
  ghost predicate Walking(schema: Schema, tables: Tables, root: Oid, seeds: set<Node>, c: Closure) {
    && (forall oid :: oid in c.relations ==> oid in schema.purgeable)
    && seeds <= c.nodes <= seeds + AllRows(tables)
    && Needed(schema, tables, seeds, c.nodes)
    && EdgesHaveRows(schema, tables, c)
    && WellFormed(root, c)
  }

  /** The closure after the rows found through one foreign key are added to it. */
  function Extend(c: Closure, key: ForeignKey, rows: set<Id>): Closure {
    var relations := if key.child in c.relations then c.relations else c.relations + [key.child];
    if rows == {} then c.(relations := relations)
    else
      var e := Edge(key.parent, key.child);
      Closure(relations, c.nodes + Seeds(key.child, rows), if e in c.edges then c.edges else c.edges + [e])
  }

  lemma ExtendKeepsWalking(schema: Schema, tables: Tables, root: Oid, seeds: set<Node>, c: Closure,
                           key: ForeignKey, parents: set<Id>)
    requires Walking(schema, tables, root, seeds, c)
    requires key in schema.keys && key.parent in c.relations
    requires Seeds(key.parent, parents) <= c.nodes && key.child in schema.purgeable
    ensures Walking(schema, tables, root, seeds, Extend(c, key, MatchingRows(tables, key, parents)))
  {
    var rows := MatchingRows(tables, key, parents);
    var c' := Extend(c, key, rows);
    forall id | id in rows
      ensures exists p :: p in parents && Node(key.parent, p) in c.nodes
                          && Refers(schema, tables, Node(key.child, id), Node(key.parent, p))
    {
      var p :| p in parents && RefersThrough(tables, key, id, p);
      assert Node(key.parent, p) in Seeds(key.parent, parents);
    }
    forall others: set<Node> | seeds <= others && Closed(schema, tables, others) ensures c'.nodes <= others {
      assert c.nodes <= others;
    }
    assert c'.nodes <= seeds + AllRows(tables);
    forall e | e in c'.edges
      ensures exists child, parent :: child in c'.nodes && parent in c'.nodes
                                      && Refers(schema, tables, child, parent)
                                      && parent.oid == e.parent && child.oid == e.child
    {
      if e in c.edges {
        var child, parent :| child in c.nodes && parent in c.nodes && Refers(schema, tables, child, parent)
                             && parent.oid == e.parent && child.oid == e.child;
        assert child in c'.nodes && parent in c'.nodes;
      } else {
        var id :| id in rows;
        var p :| p in parents && Node(key.parent, p) in c.nodes
                 && Refers(schema, tables, Node(key.child, id), Node(key.parent, p));
        assert Node(key.child, id) in c'.nodes;
      }
    }
  }

  lemma ExtendKeepsFollowed(schema: Schema, tables: Tables, c: Closure, key: ForeignKey, rows: set<Id>,
                            other: ForeignKey, n: Node)
    requires Followed(schema, tables, c, other, n)
    ensures Followed(schema, tables, Extend(c, key, rows), other, n)
  {
  }

  lemma ExtendFollows(schema: Schema, tables: Tables, c: Closure, key: ForeignKey, parents: set<Id>, n: Node)
    requires key.child in schema.purgeable && n.oid == key.parent && n.id in parents
    ensures Followed(schema, tables, Extend(c, key, MatchingRows(tables, key, parents)), key, n)
  {
    var rows := MatchingRows(tables, key, parents);
    var c' := Extend(c, key, rows);
    forall child | RefersThrough(tables, key, child, n.id)
      ensures Node(key.child, child) in c'.nodes && Edge(n.oid, key.child) in c'.edges
    {
      assert child in rows;
      assert Node(key.child, child) in Seeds(key.child, rows);
    }
  }

  lemma ExtendKeepsAllFollowed(schema: Schema, tables: Tables, c: Closure, key: ForeignKey, rows: set<Id>,
                               done: set<Node>)
    requires FollowedAll(schema, tables, c, done)
    ensures FollowedAll(schema, tables, Extend(c, key, rows), done)
  {
    forall other, n | n in done && other in schema.keys && other.parent == n.oid
      ensures Followed(schema, tables, Extend(c, key, rows), other, n)
    {
      ExtendKeepsFollowed(schema, tables, c, key, rows, other, n);
    }
  }

  lemma FollowedParents(schema: Schema, tables: Tables, c: Closure, seen: set<Node>, parent: Oid, parents: set<Id>,
                        children: seq<ForeignKey>)
    requires FollowedAll(schema, tables, c, seen) && children == ChildKeys(schema.keys, parent)
    requires FollowedFrom(schema, tables, c, children, |children|, parent, parents)
    ensures FollowedAll(schema, tables, c, seen + Seeds(parent, parents))
  {
    forall key, n | n in Seeds(parent, parents) && key in schema.keys && key.parent == n.oid
      ensures Followed(schema, tables, c, key, n)
    {
      assert key in children;
      var i :| 0 <= i < |children| && children[i] == key;
      assert n == Node(parent, n.id);
    }
  }

  lemma FollowedNothing(schema: Schema, tables: Tables, c: Closure, children: seq<ForeignKey>, parent: Oid,
                        parents: set<Id>)
    ensures FollowedFrom(schema, tables, c, children, 0, parent, parents)
  {
  }

  // ----- The queue

  lemma QueueAdvances(queue: seq<Batch>, index: nat, nodes: set<Node>, done: set<Node>, parents: set<Id>)
    requires index < |queue| && QueueCovers(queue, index, nodes, done)
    requires parents == set id | id in queue[index].ids && Node(queue[index].relation, id) !in done
    ensures QueueCovers(queue, index + 1, nodes, done + Seeds(queue[index].relation, parents))
  {
    forall n | n in nodes && n !in done && !Queued(queue, index + 1, n)
      ensures n in Seeds(queue[index].relation, parents)
    {
      assert n == Node(queue[index].relation, n.id);
    }
  }

  lemma QueueGrows(queue: seq<Batch>, index: nat, nodes: set<Node>, done: set<Node>, batch: Batch)
    requires index <= |queue| && QueueCovers(queue, index, nodes, done)
    ensures QueueCovers(queue + [batch], index, nodes + Seeds(batch.relation, batch.ids), done)
  {
    var q := queue + [batch];
    forall n | n in nodes + Seeds(batch.relation, batch.ids) ensures n in done || Queued(q, index, n) {
      if n in nodes {
        if n !in done {
          var j :| index <= j < |queue| && queue[j].relation == n.oid && n.id in queue[j].ids;
          assert q[j] == queue[j];
        }
      } else {
        assert q[|queue|] == batch;
      }
    }
  }

  lemma InspectedRoot(schema: Schema, tables: Tables, root: Oid, seeds: set<Node>)
    ensures forall nodes :: IsClosure(schema, tables, seeds, nodes) ==> Inspected(schema, root, nodes, root)
  {
  }

  /** A walk with nothing left to follow has found the closure. */
  lemma WalkDone(schema: Schema, tables: Tables, root: Oid, seeds: set<Node>, c: Closure)
    requires Walking(schema, tables, root, seeds, c)
    requires FollowedAll(schema, tables, c, c.nodes)
    ensures IsClosure(schema, tables, seeds, c.nodes)
    ensures EdgesMatchRows(schema, tables, c)
    ensures forall oid :: Inspected(schema, root, c.nodes, oid) ==> oid in schema.purgeable
  {
    forall child, parent | parent in c.nodes && Refers(schema, tables, child, parent)
      ensures child in c.nodes && Edge(parent.oid, child.oid) in c.edges
    {
      var key :| key in schema.keys && key.child == child.oid && key.parent == parent.oid
                 && RefersThrough(tables, key, child.id, parent.id);
      assert Followed(schema, tables, c, key, parent);
      assert child == Node(child.oid, child.id);
    }
  }

  /** The state of the walk: what is collected, what is queued, what has been followed. */
  ghost predicate State(schema: Schema, tables: Tables, root: Oid, seeds: set<Node>,
                        c: Closure, queue: seq<Batch>, index: nat, processed: set<Node>) {
    && index <= |queue|
    && Walking(schema, tables, root, seeds, c)
    && processed <= c.nodes
    && QueueWithin(queue, c)
    && (forall j :: 0 <= j < |queue| ==> queue[j].relation in c.relations)
    && QueueCovers(queue, index, c.nodes, processed)
  }

  function NewIds(c: Closure, key: ForeignKey, rows: set<Id>): set<Id> {
    set id | id in rows && Node(key.child, id) !in c.nodes
  }

  function Enqueue(queue: seq<Batch>, key: ForeignKey, ids: set<Id>): seq<Batch> {
    if ids == {} then queue else queue + [Batch(key.child, ids)]
  }

  lemma WalkStarts(schema: Schema, tables: Tables, root: Oid, ids: set<Id>)
    requires root in schema.purgeable
    ensures var c := Closure([root], Seeds(root, ids), []);
            && State(schema, tables, root, Seeds(root, ids), c, [Batch(root, ids)], 0, {})
            && FollowedAll(schema, tables, c, {})
  {
    var queue := [Batch(root, ids)];
    assert queue[0].relation == root;
  }

  lemma BatchStarts(schema: Schema, tables: Tables, root: Oid, seeds: set<Node>,
                    c: Closure, queue: seq<Batch>, index: nat, processed: set<Node>, parents: set<Id>)
    requires State(schema, tables, root, seeds, c, queue, index, processed) && index < |queue|
    requires parents == set id | id in queue[index].ids && Node(queue[index].relation, id) !in processed
    ensures queue[index].relation in c.relations
    ensures Seeds(queue[index].relation, parents) <= c.nodes
    ensures State(schema, tables, root, seeds, c, queue, index + 1, processed + Seeds(queue[index].relation, parents))
  {
    hide Walking;
    QueueAdvances(queue, index, c.nodes, processed, parents);
  }

  lemma FollowKeepsState(schema: Schema, tables: Tables, root: Oid, seeds: set<Node>,
                         c: Closure, queue: seq<Batch>, index: nat, processed: set<Node>,
                         key: ForeignKey, parents: set<Id>)
    requires State(schema, tables, root, seeds, c, queue, index, processed)
    requires key in schema.keys && key.parent in c.relations
    requires Seeds(key.parent, parents) <= c.nodes && key.child in schema.purgeable
    ensures var rows := MatchingRows(tables, key, parents);
            State(schema, tables, root, seeds, Extend(c, key, rows), Enqueue(queue, key, NewIds(c, key, rows)),
                  index, processed)
  {
    hide QueueCovers, MatchingRows;
    var rows := MatchingRows(tables, key, parents);
    var newIds := NewIds(c, key, rows);
    var c' := Extend(c, key, rows);
    ExtendKeepsWalking(schema, tables, root, seeds, c, key, parents);
    hide Walking;
    assert c'.nodes == c.nodes + Seeds(key.child, newIds);
    if newIds == {} {
      assert c'.nodes == c.nodes;
    } else {
      QueueGrows(queue, index, c.nodes, processed, Batch(key.child, newIds));
    }
  }

  lemma FollowKeepsFollowed(schema: Schema, tables: Tables, c: Closure, seen: set<Node>, children: seq<ForeignKey>,
                            k: nat, parent: Oid, parents: set<Id>)
    requires k < |children| && children[k].child in schema.purgeable && children[k].parent == parent
    requires FollowedAll(schema, tables, c, seen)
    requires FollowedFrom(schema, tables, c, children, k, parent, parents)
    ensures var c' := Extend(c, children[k], MatchingRows(tables, children[k], parents));
            && FollowedAll(schema, tables, c', seen)
            && FollowedFrom(schema, tables, c', children, k + 1, parent, parents)
  {
    hide Followed, MatchingRows, Extend;
    var key := children[k];
    var rows := MatchingRows(tables, key, parents);
    var c' := Extend(c, key, rows);
    ExtendKeepsAllFollowed(schema, tables, c, key, rows, seen);
    forall i, id | 0 <= i <= k && id in parents
      ensures Followed(schema, tables, c', children[i], Node(parent, id))
    {
      if i == k {
        ExtendFollows(schema, tables, c, key, parents, Node(parent, id));
      } else {
        ExtendKeepsFollowed(schema, tables, c, key, rows, children[i], Node(parent, id));
      }
    }
  }

  ghost predicate FollowedFrom(schema: Schema, tables: Tables, c: Closure, children: seq<ForeignKey>, k: nat,
                               parent: Oid, parents: set<Id>)
    requires k <= |children|
  {
    forall i, id :: 0 <= i < k && id in parents ==> Followed(schema, tables, c, children[i], Node(parent, id))
  }

  lemma StateFacts(schema: Schema, tables: Tables, root: Oid, seeds: set<Node>,
                   c: Closure, queue: seq<Batch>, index: nat, processed: set<Node>)
    requires State(schema, tables, root, seeds, c, queue, index, processed)
    ensures forall oid :: oid in c.relations ==> oid in schema.purgeable
    ensures c.nodes <= seeds + AllRows(tables)
  {
  }

  /** A relation met through a collected row is inspected whatever the closure turns out to be. */
  lemma InspectedByAll(schema: Schema, tables: Tables, root: Oid, seeds: set<Node>,
                       c: Closure, queue: seq<Batch>, index: nat, processed: set<Node>,
                       key: ForeignKey, parents: set<Id>)
    requires State(schema, tables, root, seeds, c, queue, index, processed)
    requires key in schema.keys && parents != {} && Seeds(key.parent, parents) <= c.nodes
    ensures forall nodes :: IsClosure(schema, tables, seeds, nodes) ==> Inspected(schema, root, nodes, key.child)
  {
    var id :| id in parents;
    var n := Node(key.parent, id);
    assert n in Seeds(key.parent, parents);
    forall nodes | IsClosure(schema, tables, seeds, nodes) ensures Inspected(schema, root, nodes, key.child) {
      assert c.nodes <= nodes;
      assert n in nodes && n.oid == key.parent;
    }
  }

  lemma AllProcessed(schema: Schema, tables: Tables, root: Oid, seeds: set<Node>,
                     c: Closure, queue: seq<Batch>, index: nat, processed: set<Node>)
    requires State(schema, tables, root, seeds, c, queue, index, processed) && index == |queue|
    ensures c.nodes == processed && Walking(schema, tables, root, seeds, c)
  {
  }

  lemma SameNewIds(c: Closure, c': Closure, key: ForeignKey, rows: set<Id>)
    requires c.nodes == c'.nodes
    ensures NewIds(c, key, rows) == NewIds(c', key, rows)
  {
  }

  lemma NoSeeds(oid: Oid)
    ensures Seeds(oid, {}) == {}
  {
  }

  /** Only the new ids change the set of collected rows. */
  lemma AddNewIds(c: Closure, key: ForeignKey, rows: set<Id>)
    ensures c.nodes + Seeds(key.child, NewIds(c, key, rows)) == c.nodes + Seeds(key.child, rows)
    ensures rows == {} ==> NewIds(c, key, rows) == {}
    ensures NewIds(c, key, rows) == {} ==> c.nodes + Seeds(key.child, rows) == c.nodes
    ensures NewIds(c, key, rows) != {} ==> c.nodes + Seeds(key.child, rows) != c.nodes
  {
    if NewIds(c, key, rows) != {} {
      var id :| id in NewIds(c, key, rows);
      assert Node(key.child, id) in Seeds(key.child, rows);
    }
  }

  method CollectClosure(schema: Schema, tables: Tables, root: Oid, productIds: set<Id>)
    returns (r: Result<Closure, Oid>)
    ensures r.Ok? ==>
              && IsClosure(schema, tables, Seeds(root, productIds), r.value.nodes)
              && EdgesMatchRows(schema, tables, r.value)
              && WellFormed(root, r.value)
              && forall oid :: Inspected(schema, root, r.value.nodes, oid) ==> oid in schema.purgeable
    ensures r.Err? ==>
              && r.error !in schema.purgeable
              && forall nodes :: IsClosure(schema, tables, Seeds(root, productIds), nodes)
                                 ==> Inspected(schema, root, nodes, r.error)
  {
    hide FollowedAll, FollowedFrom, Inspected, IsClosure, EdgesMatchRows, EdgesHaveRows, Needed, MatchingRows;
    hide AllRows, State, NewIds, Seeds;
    if root !in schema.purgeable {
      InspectedRoot(schema, tables, root, Seeds(root, productIds));
      return Err(root);
    }
    ghost var seeds := Seeds(root, productIds);
    var c := Closure([root], Seeds(root, productIds), []);
    var processed: set<Node> := {};
    var queue := [Batch(root, productIds)];
    var index := 0;
    WalkStarts(schema, tables, root, productIds);

    while index < |queue|
      invariant 0 <= index <= |queue|
      invariant State(schema, tables, root, seeds, c, queue, index, processed)
      invariant FollowedAll(schema, tables, c, processed)
      decreases (seeds + AllRows(tables)) - c.nodes, |queue| - index
    {
      var parent := queue[index].relation;
      var parents := set id | id in queue[index].ids && Node(parent, id) !in processed;
      ghost var seen, before, pending := processed, c.nodes, |queue|;
      BatchStarts(schema, tables, root, seeds, c, queue, index, processed, parents);
      index := index + 1;
      if parents == {} {
        NoSeeds(parent);
        assert processed + Seeds(parent, parents) == processed;
        continue;
      }
      processed := processed + Seeds(parent, parents);

      var children := ChildKeys(schema.keys, parent);
      FollowedNothing(schema, tables, c, children, parent, parents);
      for k := 0 to |children|
        invariant State(schema, tables, root, seeds, c, queue, index, processed)
        invariant index <= |queue|
        invariant parent in c.relations && before <= c.nodes && Seeds(parent, parents) <= c.nodes
        invariant before == c.nodes ==> |queue| == pending
        invariant FollowedAll(schema, tables, c, seen)
        invariant FollowedFrom(schema, tables, c, children, k, parent, parents)
      {
        var key := children[k];
        ghost var c0 := c;
        StateFacts(schema, tables, root, seeds, c, queue, index, processed);
        if key.child !in c.relations {
          if key.child !in schema.purgeable {
            InspectedByAll(schema, tables, root, seeds, c, queue, index, processed, key, parents);
            return Err(key.child);
          }
          c := c.(relations := c.relations + [key.child]);
        }
        FollowKeepsState(schema, tables, root, seeds, c0, queue, index, processed, key, parents);
        FollowKeepsFollowed(schema, tables, c0, seen, children, k, parent, parents);
        var rows := MatchingRows(tables, key, parents);
        AddNewIds(c0, key, rows);
        if rows == {} {
          continue;
        }
        var e := Edge(parent, key.child);
        if e !in c.edges {
          c := c.(edges := c.edges + [e]);
        }
        var newIds := NewIds(c, key, rows);
        SameNewIds(c0, c, key, rows);
        c := c.(nodes := c.nodes + Seeds(key.child, newIds));
        if newIds == {} {
          continue;
        }
        queue := queue + [Batch(key.child, newIds)];
      }
      FollowedParents(schema, tables, c, seen, parent, parents, children);
      StateFacts(schema, tables, root, seeds, c, queue, index, processed);
    }
    AllProcessed(schema, tables, root, seeds, c, queue, index, processed);
    WalkDone(schema, tables, root, seeds, c);
    r := Ok(c);
  }
}
