/**
 Tables whose rows refer to each other through single-column foreign keys, as
 scripts/db/purge-legacy-geography-products.ts reads them from the catalogue.
 */
module ForeignKeys {

  type Oid = string
  type Id = string

  /** A row by its relation and its primary key. */
  datatype Node = Node(oid: Oid, id: Id)

  /** A null column is absent from the map. */
  datatype Row = Row(columns: map<string, Id>)

  type Tables = map<Oid, map<Id, Row>>

  /** child.column refers to the primary key of parent. */
  datatype ForeignKey = ForeignKey(child: Oid, column: string, parent: Oid)

  /** The foreign keys, and the relations that are public and have a single-column primary key. */
  datatype Schema = Schema(keys: seq<ForeignKey>, purgeable: set<Oid>)

  predicate Present(tables: Tables, n: Node) {
    n.oid in tables && n.id in tables[n.oid]
  }

  predicate RefersThrough(tables: Tables, key: ForeignKey, child: Id, parent: Id) {
    && Present(tables, Node(key.child, child))
    && var columns := tables[key.child][child].columns;
       key.column in columns && columns[key.column] == parent
  }

  /** Some foreign key makes the row child refer to the row parent. */
  ghost predicate Refers(schema: Schema, tables: Tables, child: Node, parent: Node) {
    exists key :: key in schema.keys && key.child == child.oid && key.parent == parent.oid
                  && RefersThrough(tables, key, child.id, parent.id)
  }

  /** Every reference leads to a row that is there. */
  ghost predicate Integrity(schema: Schema, tables: Tables) {
    forall key, child, parent ::
      key in schema.keys && RefersThrough(tables, key, child, parent) ==> Present(tables, Node(key.parent, parent))
  }

  function Seeds(root: Oid, ids: set<Id>): set<Node> {
    set id | id in ids :: Node(root, id)
  }

  /** nodes contains every row that refers to one of its members. */
  ghost predicate Closed(schema: Schema, tables: Tables, nodes: set<Node>) {
    forall child, parent :: parent in nodes && Refers(schema, tables, child, parent) ==> child in nodes
  }

  /** nodes is the least closed set around the seeds. */
  ghost predicate IsClosure(schema: Schema, tables: Tables, seeds: set<Node>, nodes: set<Node>) {
    && seeds <= nodes
    && Closed(schema, tables, nodes)
    && forall others: set<Node> :: seeds <= others && Closed(schema, tables, others) ==> nodes <= others
  }

  /** The tables without the given rows. */
  function Without(tables: Tables, nodes: set<Node>): (r: Tables)
    ensures r.Keys == tables.Keys
    ensures forall n :: Present(r, n) <==> Present(tables, n) && n !in nodes
    ensures forall n :: Present(r, n) ==> Present(tables, n) && r[n.oid][n.id] == tables[n.oid][n.id]
  {
    var r := map oid | oid in tables ::
               map id | id in tables[oid] && Node(oid, id) !in nodes :: tables[oid][id];
    assert forall n: Node :: n == Node(n.oid, n.id);
    r
  }

  lemma WithoutTwice(tables: Tables, a: set<Node>, b: set<Node>)
    ensures Without(Without(tables, a), b) == Without(tables, a + b)
  {
    var l, r := Without(Without(tables, a), b), Without(tables, a + b);
    forall oid | oid in tables ensures l[oid] == r[oid] {
      forall id ensures id in l[oid] <==> id in r[oid] {
        assert Present(l, Node(oid, id)) <==> Present(r, Node(oid, id));
      }
      forall id | id in l[oid] ensures l[oid][id] == r[oid][id] {
        assert Present(l, Node(oid, id)) && Present(r, Node(oid, id));
      }
    }
  }

  /** Removing rows removes no reference between the rows that stay. */
  lemma RefersWithout(tables: Tables, nodes: set<Node>, key: ForeignKey, child: Id, parent: Id)
    requires RefersThrough(Without(tables, nodes), key, child, parent)
    ensures RefersThrough(tables, key, child, parent)
  {
    assert Present(Without(tables, nodes), Node(key.child, child));
  }
}
