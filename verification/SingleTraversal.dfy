/** Single-query traversal: the joins of a selection as objects, the tables it reads, and row security on every type. */
module SingleTraversal {
  import opened Truth
  import opened Filters
  import opened Sql
  import opened Query
  import opened RowSecurity

  // ---------------------------------------------------------------- on values

  function TablesOf(n: Node): set<string> {
    {n.table} + TablesBelow(n.edges)
  }

  function TablesBelow(edges: seq<Edge>): set<string> {
    if edges == [] then {} else TablesOf(edges[0].node) + TablesBelow(edges[1..])
  }

  /** The type is the selected one, or that of a selected relationship, at any depth. */
  ghost predicate Reads(n: Node, table: string)
    decreases n
  {
    n.table == table || exists e :: e in n.edges && Reads(e.node, table)
  }

  lemma {:induction false} TablesAreRead(n: Node, table: string)
    ensures table in TablesOf(n) <==> Reads(n, table)
    decreases n, 1
  {
    TablesBelowAreRead(n.edges, table);
  }

  lemma {:induction false} TablesBelowAreRead(edges: seq<Edge>, table: string)
    ensures table in TablesBelow(edges) <==> exists e :: e in edges && Reads(e.node, table)
    decreases edges, 0
  {
    if edges != [] {
      TablesAreRead(edges[0].node, table);
      TablesBelowAreRead(edges[1..], table);
      assert forall e :: e in edges <==> e == edges[0] || e in edges[1..];
    }
  }

  /** The selection with the merged filter on every type. */
  function SecureNode(securityMap: map<string, FilterSet>, n: Node): Node {
    n.(filter := Secured(RoleOf(securityMap, n.table), n.filter), edges := SecureEdges(securityMap, n.edges))
  }

  function SecureEdges(securityMap: map<string, FilterSet>, edges: seq<Edge>): seq<Edge> {
    if edges == [] then []
    else [edges[0].(node := SecureNode(securityMap, edges[0].node))] + SecureEdges(securityMap, edges[1..])
  }

  function SecureEdge(securityMap: map<string, FilterSet>, e: Edge): Edge {
    e.(node := SecureNode(securityMap, e.node))
  }

  lemma {:induction false} SecureEdgesAt(securityMap: map<string, FilterSet>, edges: seq<Edge>, i: nat)
    requires i < |edges|
    ensures |SecureEdges(securityMap, edges)| == |edges|
    ensures SecureEdges(securityMap, edges)[i] == SecureEdge(securityMap, edges[i])
    decreases edges
  {
    if i > 0 {
      SecureEdgesAt(securityMap, edges[1..], i - 1);
    } else if |edges| > 1 {
      SecureEdgesAt(securityMap, edges[1..], 0);
    }
  }

  lemma {:induction false} TablesSnoc(edges: seq<Edge>, e: Edge)
    ensures TablesBelow(edges + [e]) == TablesBelow(edges) + TablesOf(e.node)
    decreases edges
  {
    if edges == [] {
      assert [] + [e] == [e] && [e][1..] == [];
    } else {
      assert (edges + [e])[1..] == edges[1..] + [e];
      TablesSnoc(edges[1..], e);
    }
  }

  // ---------------------------------------------------------------- join conditions as objects

  class TableSet {
    var names: set<string>

    constructor (name: string)
      ensures names == {name}
    {
      names := {name};
    }

    method Add(name: string)
      modifies this
      ensures names == old(names) + {name}
    {
      names := names + {name};
    }
  }

  class JoinCondition {
    /** What the schema says of the joined field. */
    const schema: Edge
    var filterSet: Option<FilterSet>
    var children: seq<JoinCondition>

    /** This join and every join below it. */
    ghost var repr: set<JoinCondition>

    constructor (schema: Edge, children: seq<JoinCondition>, ghost below: set<JoinCondition>)
      requires Are(children, schema.node.edges, below)
      ensures Is(schema) && fresh(this) && repr == {this} + below
    {
      this.schema, this.filterSet, this.children := schema, schema.node.filter, children;
      repr := {this} + below;
    }

    /** The objects stand for a selected relationship, each join reached once. */
    ghost predicate Is(e: Edge)
      reads this, repr
      decreases e, 1
    {
      this in repr && filterSet == e.node.filter &&
      schema.(node := schema.node.(filter := None, edges := [])) == e.(node := e.node.(filter := None, edges := [])) &&
      Are(children, e.node.edges, repr - {this})
    }
  }

  ghost predicate Are(js: seq<JoinCondition>, edges: seq<Edge>, own: set<JoinCondition>)
    reads own
    decreases edges, 0
  {
    |js| == |edges| && (forall i :: 0 <= i < |js| ==> js[i] in own && js[i].repr <= own && js[i].Is(edges[i])) &&
    forall i, k :: 0 <= i < k < |js| ==> js[i].repr !! js[k].repr
  }

  lemma AreSnoc(js: seq<JoinCondition>, edges: seq<Edge>, own: set<JoinCondition>, j: JoinCondition, e: Edge)
    requires Are(js, edges, own) && j.Is(e) && j.repr !! own
    ensures Are(js + [j], edges + [e], own + j.repr)
  {
  }

  /** The selection's relationships become join conditions, and their types join the set of tables. */
  method Traverse(edges: seq<Edge>, tableSet: TableSet)
    returns (joins: seq<JoinCondition>, ghost own: set<JoinCondition>)
    modifies tableSet
    ensures tableSet.names == old(tableSet.names) + TablesBelow(edges)
    ensures fresh(own) && Are(joins, edges, own)
    decreases edges, 0
  {
    joins, own := [], {};
    assert edges[..0] == [];
    for i := 0 to |edges|
      invariant tableSet.names == old(tableSet.names) + TablesBelow(edges[..i])
      invariant fresh(own) && Are(joins, edges[..i], own)
    {
      var join := TraverseField(edges[i], tableSet);
      assert edges[..i + 1] == edges[..i] + [edges[i]];
      TablesSnoc(edges[..i], edges[i]);
      AreSnoc(joins, edges[..i], own, join, edges[i]);
      joins, own := joins + [join], own + join.repr;
    }
    assert edges[..|edges|] == edges;
  }

  method TraverseField(e: Edge, tableSet: TableSet) returns (join: JoinCondition)
    modifies tableSet
    ensures tableSet.names == old(tableSet.names) + TablesOf(e.node)
    ensures fresh(join.repr) && join.Is(e)
    decreases e, 1
  {
    tableSet.Add(e.node.table);
    var children, below := Traverse(e.node.edges, tableSet);
    join := new JoinCondition(e, children, below);
  }

  /** The merged filter is put on a join and on the joins below it. */
  method PopulateJoinConditionFiltersets(jc: JoinCondition, securityMap: map<string, FilterSet>, ghost e: Edge)
    requires jc.Is(e)
    modifies jc.repr
    ensures jc.repr == old(jc.repr) && jc.Is(SecureEdge(securityMap, e))
    decreases e, 1
  {
    jc.filterSet := Secured(RoleOf(securityMap, jc.schema.node.table), jc.filterSet);
    PopulateAll(jc.children, securityMap, e.node.edges, jc.repr - {jc});
  }

  method PopulateAll(
      js: seq<JoinCondition>, securityMap: map<string, FilterSet>, ghost edges: seq<Edge>,
      ghost own: set<JoinCondition>)
    requires Are(js, edges, own)
    modifies own
    ensures Are(js, SecureEdges(securityMap, edges), own)
    decreases edges, 0
  {
    for i := 0 to |js|
      invariant forall k :: 0 <= k < |js| ==> js[k] in own && js[k].repr == old(js[k].repr)
      invariant forall k :: 0 <= k < i ==> js[k].Is(SecureEdge(securityMap, edges[k]))
      invariant forall k :: i <= k < |js| ==> js[k].Is(edges[k])
    {
      assert forall k :: 0 <= k < |js| && k != i ==> js[k].repr !! js[i].repr;
      PopulateJoinConditionFiltersets(js[i], securityMap, edges[i]);
    }
    if edges != [] {
      SecureEdgesAt(securityMap, edges, 0);
    }
    forall k | 0 <= k < |js|
      ensures SecureEdges(securityMap, edges)[k] == SecureEdge(securityMap, edges[k])
    {
      SecureEdgesAt(securityMap, edges, k);
    }
  }

  datatype Prepared =
    | Prepared(filter: Option<FilterSet>, joins: seq<JoinCondition>)
    | NotAuthorized(tables: set<string>)

  /**
   A query is prepared only when every table it reads is readable, with row security on its root and on every join.
   */
  method Execute(n: Node, privileges: AccessPrivileges) returns (r: Prepared, ghost own: set<JoinCondition>)
    ensures r.Prepared? <==> forall t :: Reads(n, t) ==> t in privileges.readPrivilegesTableSet
    ensures r.NotAuthorized? ==> forall t :: t in r.tables <==> Reads(n, t) && t !in privileges.readPrivilegesTableSet
    ensures r.Prepared? ==>
              var secured := SecureNode(privileges.rowSecurityMap, n);
              r.filter == secured.filter && Are(r.joins, secured.edges, own)
  {
    var tableSet := new TableSet(n.table);
    var joins;
    joins, own := Traverse(n.edges, tableSet);
    forall t
      ensures t in tableSet.names <==> Reads(n, t)
    {
      TablesAreRead(n, t);
    }
    if !privileges.IsAuthorized(tableSet.names) {
      return NotAuthorized(tableSet.names - privileges.readPrivilegesTableSet), own;
    }
    PopulateAll(joins, privileges.rowSecurityMap, n.edges, own);
    r := Prepared(Secured(RoleOf(privileges.rowSecurityMap, n.table), n.filter), joins);
  }

  // ---------------------------------------------------------------- what it means

  /** Under row security a relationship leads to the rows it led to before that the roles allow. */
  lemma SecuredJoin(
      db: Database, securityMap: map<string, FilterSet>, perms: seq<DmRowPermission>, e: Edge, parent: Row, child: Row)
    requires MapsTo(securityMap, perms)
    ensures JoinsTo(db, SecureEdge(securityMap, e), parent, child) <==>
              JoinsTo(db, e, parent, child) && Allowed(db.collation, perms, e.node.table, child)
  {
    SecuredMeans(db.collation, securityMap, perms, e.node.table, e.node.filter, child);
  }

  /** The nested objects with every child the roles do not allow left out, with everything below it. */
  ghost function BuildAllowed(db: Database, perms: seq<DmRowPermission>, n: Node, row: Row): Tree
    decreases n
  {
    Tree(ScalarsOf(n, row),
         set e, y | e in n.edges && y in RowsOf(db, e.node.table) &&
                    JoinsTo(db, e, row, y) && Allowed(db.collation, perms, e.node.table, y) ::
           (e.field, BuildAllowed(db, perms, e.node, y)))
  }

  /** Row filters mean what the roles say, on every type of the query. */
  lemma {:induction false} SecuredBuild(
      db: Database, securityMap: map<string, FilterSet>, perms: seq<DmRowPermission>, n: Node, row: Row)
    requires MapsTo(securityMap, perms)
    ensures Build(db, SecureNode(securityMap, n), row) == BuildAllowed(db, perms, n, row)
    decreases n
  {
    forall e, y | e in n.edges && y in RowsOf(db, e.node.table)
      ensures SecureEdge(securityMap, e) in SecureEdges(securityMap, n.edges)
      ensures JoinsTo(db, SecureEdge(securityMap, e), row, y) <==>
                JoinsTo(db, e, row, y) && Allowed(db.collation, perms, e.node.table, y)
      ensures Build(db, SecureNode(securityMap, e.node), y) == BuildAllowed(db, perms, e.node, y)
    {
      var i :| 0 <= i < |n.edges| && n.edges[i] == e;
      SecureEdgesAt(securityMap, n.edges, i);
      SecuredJoin(db, securityMap, perms, e, row, y);
      SecuredBuild(db, securityMap, perms, e.node, y);
    }
    SecuredKids(db, securityMap, perms, n, row);
  }

  lemma SecuredKids(
      db: Database, securityMap: map<string, FilterSet>, perms: seq<DmRowPermission>, n: Node, row: Row)
    requires forall e, y :: e in n.edges && y in RowsOf(db, e.node.table) ==>
               SecureEdge(securityMap, e) in SecureEdges(securityMap, n.edges) &&
               (JoinsTo(db, SecureEdge(securityMap, e), row, y) <==>
                JoinsTo(db, e, row, y) && Allowed(db.collation, perms, e.node.table, y)) &&
               Build(db, SecureNode(securityMap, e.node), y) == BuildAllowed(db, perms, e.node, y)
    ensures Build(db, SecureNode(securityMap, n), row).kids == BuildAllowed(db, perms, n, row).kids
  {
    var secured, allowed := Build(db, SecureNode(securityMap, n), row), BuildAllowed(db, perms, n, row);
    forall kid | kid in secured.kids
      ensures kid in allowed.kids
    {
      var s, y :| s in SecureEdges(securityMap, n.edges) && y in RowsOf(db, s.node.table) && JoinsTo(db, s, row, y) &&
                  kid == (s.field, Build(db, s.node, y));
      var e := EdgeOf(securityMap, n.edges, s);
    }
    forall kid | kid in allowed.kids
      ensures kid in secured.kids
    {
      var e, y :| e in n.edges && y in RowsOf(db, e.node.table) && JoinsTo(db, e, row, y) &&
                  Allowed(db.collation, perms, e.node.table, y) && kid == (e.field, BuildAllowed(db, perms, e.node, y));
      assert SecureEdge(securityMap, e) in SecureEdges(securityMap, n.edges);
    }
  }

  lemma EdgeOf(securityMap: map<string, FilterSet>, edges: seq<Edge>, s: Edge) returns (e: Edge)
    requires s in SecureEdges(securityMap, edges)
    ensures e in edges && s == SecureEdge(securityMap, e)
  {
    var secured := SecureEdges(securityMap, edges);
    if edges != [] {
      SecureEdgesAt(securityMap, edges, 0);
    }
    var i :| 0 <= i < |secured| && secured[i] == s;
    SecureEdgesAt(securityMap, edges, i);
    e := edges[i];
  }
}
