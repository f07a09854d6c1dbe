/**
 The depth-first walk that orders the relations for deletion: children before parents, or an error
 when the recorded graph has a cycle.
 */
module PurgeOrder {
  import opened Options
  import opened ForeignKeys
  import opened PurgeClosure

  /** The recorded children of a relation. */
  function ChildrenOf(edges: seq<Edge>, parent: Oid): (r: seq<Oid>)
    ensures forall child :: child in r <==> Edge(parent, child) in edges
  {
    if edges == [] then []
    else (if edges[0].parent == parent then [edges[0].child] else []) + ChildrenOf(edges[1..], parent)
  }

  /** A walk along edges. */
  ghost predicate Path(edges: seq<Edge>, p: seq<Oid>) {
    forall i :: 0 <= i < |p| - 1 ==> Edge(p[i], p[i + 1]) in edges
  }

  ghost predicate Cycle(edges: seq<Edge>, p: seq<Oid>) {
    |p| >= 2 && p[0] == p[|p| - 1] && Path(edges, p)
  }

  ghost predicate HasCycle(edges: seq<Edge>) {
    exists p :: Cycle(edges, p)
  }

  /** Every child of a listed relation is listed before it. */
  ghost predicate ChildrenFirst(edges: seq<Edge>, order: seq<Oid>) {
    forall e, j :: e in edges && 0 <= j < |order| && order[j] == e.parent ==> e.child in order[..j]
  }

  lemma PathSuffix(edges: seq<Edge>, p: seq<Oid>, i: nat)
    requires Path(edges, p) && i <= |p|
    ensures Path(edges, p[i..])
  {
    forall k | 0 <= k < |p[i..]| - 1 ensures Edge(p[i..][k], p[i..][k + 1]) in edges {
      assert p[i..][k] == p[i + k] && p[i..][k + 1] == p[i + k + 1];
    }
  }

  lemma {:induction false} PathDescends(edges: seq<Edge>, order: seq<Oid>, p: seq<Oid>, j: nat)
    requires ChildrenFirst(edges, order) && Path(edges, p) && |p| >= 2
    requires j < |order| && order[j] == p[0]
    ensures exists k :: 0 <= k < j && order[k] == p[|p| - 1]
    decreases |p|
  {
    assert Edge(p[0], p[1]) in edges;
    assert p[1] in order[..j];
    var k :| 0 <= k < j && order[k] == p[1];
    if |p| > 2 {
      PathSuffix(edges, p, 1);
      PathDescends(edges, order, p[1..], k);
    }
  }

  /** A children-first list of all endpoints rules out cycles. */
  lemma OrderedIsAcyclic(edges: seq<Edge>, order: seq<Oid>)
    requires Distinct(order) && ChildrenFirst(edges, order)
    requires forall e :: e in edges ==> e.parent in order
    ensures !HasCycle(edges)
  {
    if p :| Cycle(edges, p) {
      assert Edge(p[0], p[1]) in edges;
      var j :| 0 <= j < |order| && order[j] == p[0];
      PathDescends(edges, order, p, j);
    }
  }

  function Populated(nodes: set<Node>): set<Oid> {
    set n | n in nodes :: n.oid
  }

  function Keep(order: seq<Oid>, populated: set<Oid>): seq<Oid> {
    if order == [] then []
    else
      var last := order[|order| - 1];
      Keep(order[..|order| - 1], populated) + if last in populated then [last] else []
  }

  lemma {:induction false} KeepMembers(order: seq<Oid>, populated: set<Oid>)
    ensures forall o :: o in Keep(order, populated) <==> o in order && o in populated
    ensures Distinct(order) ==> Distinct(Keep(order, populated))
    decreases |order|
  {
    if order != [] {
      KeepMembers(order[..|order| - 1], populated);
      assert order == order[..|order| - 1] + [order[|order| - 1]];
    }
  }

  lemma {:induction false} KeepChildrenFirst(edges: seq<Edge>, order: seq<Oid>, populated: set<Oid>)
    requires ChildrenFirst(edges, order) && Distinct(order)
    requires forall e :: e in edges ==> e.child in populated
    ensures ChildrenFirst(edges, Keep(order, populated))
    decreases |order|
  {
    if order != [] {
      var init, last := order[..|order| - 1], order[|order| - 1];
      assert order == init + [last];
      forall e, j | e in edges && 0 <= j < |init| && init[j] == e.parent ensures e.child in init[..j] {
        assert order[j] == e.parent && order[..j] == init[..j];
      }
      KeepChildrenFirst(edges, init, populated);
      KeepMembers(init, populated);
      var kept := Keep(init, populated);
      if last in populated {
        forall e, j | e in edges && 0 <= j < |kept + [last]| && (kept + [last])[j] == e.parent
          ensures e.child in (kept + [last])[..j]
        {
          if j < |kept| {
            assert (kept + [last])[..j] == kept[..j];
          } else {
            assert order[|init|] == e.parent && order[..|init|] == init;
            assert (kept + [last])[..j] == kept;
          }
        }
      } else {
        assert Keep(order, populated) == kept;
      }
    }
  }

  /** The state of the walk: grey and black relations and the deletion order so far. */
  class Walk {
    const closure: Closure
    var visiting: set<Oid>
    var visited: set<Oid>
    var ordered: seq<Oid>
    /** Every black relation in the order it turned black, also those without rows to delete. */
    ghost var finished: seq<Oid>

    constructor (closure: Closure)
      ensures this.closure == closure
      ensures Valid([]) && visited == {} && ordered == [] && fresh(this)
    {
      this.closure := closure;
      visiting, visited, ordered := {}, {}, [];
      finished := [];
    }

    /** stack is the path of grey relations from the start of the walk. */
    ghost predicate Valid(stack: seq<Oid>)
      reads this
    {
      && Path(closure.edges, stack)
      && visiting == (set o | o in stack)
      && visiting !! visited
      && visited == (set o | o in finished)
      && Distinct(finished)
      && ChildrenFirst(closure.edges, finished)
      && ordered == Keep(finished, Populated(closure.nodes))
    }

    /** Visits a relation and everything below it; returns false where the source throws. */
    method Visit(key: Oid, ghost stack: seq<Oid>, ghost all: set<Oid>) returns (acyclic: bool)
      requires Valid(stack) && Path(closure.edges, stack + [key])
      requires key in all && forall o :: o in stack ==> o in all
      requires forall e :: e in closure.edges ==> e.child in all
      modifies this
      ensures acyclic ==> Valid(stack) && old(visited) + {key} <= visited
      ensures acyclic ==> visiting == old(visiting)
      ensures acyclic ==> forall o :: o in visited ==> o in old(visited) || o in all
      ensures !acyclic ==> HasCycle(closure.edges)
      decreases all - visiting
    {
      if key in visited {
        return true;
      }
      if key in visiting {
        GreyMeansCycle(closure.edges, stack, key);
        return false;
      }
      visiting := visiting + {key};
      ghost var stack' := stack + [key];
      assert visiting == set o | o in stack';

      var children := ChildrenOf(closure.edges, key);
      for i := 0 to |children|
        invariant Valid(stack') && old(visited) <= visited
        invariant visiting == old(visiting) + {key}
        invariant forall j :: 0 <= j < i ==> children[j] in visited
        invariant forall o :: o in visited ==> o in old(visited) || o in all
      {
        assert children[i] in children;
        assert Edge(key, children[i]) in closure.edges;
        var ok := Visit(children[i], stack', all);
        if !ok {
          return false;
        }
      }
      assert key !in finished by { assert key in visiting; }
      assert forall e :: e in closure.edges && e.parent == key ==> e.child in visited;

      visiting := visiting - {key};
      visited := visited + {key};
      ghost var before := finished;
      FinishKeepsOrder(closure.edges, finished, key);
      finished := finished + [key];
      assert finished[..|finished| - 1] == before;
      if key in Populated(closure.nodes) {
        ordered := ordered + [key];
      }
      acyclic := true;
    }
  }

  lemma GreyMeansCycle(edges: seq<Edge>, stack: seq<Oid>, key: Oid)
    requires Path(edges, stack + [key]) && key in stack
    ensures HasCycle(edges)
  {
    var i :| 0 <= i < |stack| && stack[i] == key;
    PathSuffix(edges, stack + [key], i);
    assert Cycle(edges, (stack + [key])[i..]);
  }

  lemma FinishKeepsOrder(edges: seq<Edge>, finished: seq<Oid>, key: Oid)
    requires ChildrenFirst(edges, finished) && Distinct(finished) && key !in finished
    requires forall e :: e in edges && e.parent == key ==> e.child in finished
    ensures ChildrenFirst(edges, finished + [key]) && Distinct(finished + [key])
  {
    var order := finished + [key];
    forall e, j | e in edges && 0 <= j < |order| && order[j] == e.parent ensures e.child in order[..j] {
      assert order[..j] == finished[..j];
      if j == |finished| {
        assert finished[..j] == finished;
      }
    }
  }

  /** Each relation with rows to delete exactly once, children before parents. */
  ghost predicate DeletionOrderOf(c: Closure, order: seq<Oid>) {
    && Distinct(order)
    && (forall o :: o in order <==> o in Populated(c.nodes))
    && ChildrenFirst(c.edges, order)
  }

  method DeletionOrder(c: Closure) returns (r: Option<seq<Oid>>)
    requires forall n :: n in c.nodes ==> n.oid in c.relations
    requires forall e :: e in c.edges ==> e.parent in c.relations && e.child in c.relations
    requires forall e :: e in c.edges ==> e.child in Populated(c.nodes)
    ensures r.None? <==> HasCycle(c.edges)
    ensures r.Some? ==> DeletionOrderOf(c, r.value)
  {
    var walk := new Walk(c);
    ghost var all := set o | o in c.relations;
    for i := 0 to |c.relations|
      invariant fresh(walk) && walk.closure == c && walk.Valid([])
      invariant forall j :: 0 <= j < i ==> c.relations[j] in walk.visited
      invariant forall o :: o in walk.visited ==> o in all
    {
      assert [] + [c.relations[i]] == [c.relations[i]];
      var ok := walk.Visit(c.relations[i], [], all);
      if !ok {
        return None;
      }
    }
    OrderedIsAcyclic(c.edges, walk.finished);
    KeepMembers(walk.finished, Populated(c.nodes));
    KeepChildrenFirst(c.edges, walk.finished, Populated(c.nodes));
    r := Some(walk.ordered);
  }
}
