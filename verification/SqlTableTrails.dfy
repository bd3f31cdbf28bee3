/** The extracted tables once more, without any walk: a query reads what a trail of nested dictionaries
    leads to. */
module SqlTableTrails {
  import opened SqlTables
  import opened Wrappers

  /** A dictionary, and the names in scope where it stands. */
  datatype Place = Place(node: Node, scope: set<string>)

  /** The common table expressions bind these names. */
  function Bound(ctes: seq<Cte>): set<string> {
    set c | c in ctes :: c.ctename
  }

  /** The names in scope at the dictionary itself and at all but its common table expressions. */
  function Inside(p: Place): set<string> {
    if p.node.withClause.None? then p.scope else p.scope + Bound(p.node.withClause.value.ctes)
  }

  /** The value is the dictionary, or a tuple with the dictionary for an item, or for an item of an item
      and so on if tuples are entered at any depth. */
  ghost predicate Holds(value: Value, node: Node, deep: bool)
    decreases value
  {
    match value
    case Scalar => false
    case Dict(n) => n == node
    case Tuple(items) =>
      exists j | 0 <= j < |items| :: items[j] == Dict(node) || (deep && items[j].Tuple? && Holds(items[j], node, true))
  }

  ghost predicate LeadsToField(p: Place, q: Place, deep: bool) {
    && q.scope == Inside(p)
    && exists i | 0 <= i < |p.node.fields| :: Holds(p.node.fields[i], q.node, deep)
  }

  /** An expression of a WITH RECURSIVE is in the scope of all names of it, one of a plain WITH in that of
      the names before its own. */
  ghost predicate LeadsToCte(p: Place, q: Place) {
    && p.node.withClause.Some?
    && var w := p.node.withClause.value;
       exists i | 0 <= i < |w.ctes| ::
         && q.node == w.ctes[i].node
         && q.scope == p.scope + Bound(if w.recursive then w.ctes else w.ctes[..i])
  }

  ghost predicate Leads(p: Place, q: Place, deep: bool) {
    LeadsToField(p, q, deep) || LeadsToCte(p, q)
  }

  ghost predicate Trail(trail: seq<Place>, deep: bool) {
    trail != [] && forall k | 0 < k < |trail| :: Leads(trail[k - 1], trail[k], deep)
  }

  /** The dictionary names the table: with its schema, or without one, or with an empty one. */
  predicate NamedAt(p: Place, table: Table) {
    && p.node.kind.RangeVar?
    && p.node.kind.relname == table.1
    && (match p.node.kind.schemaname
        case None => table.0 == "public" && table.1 !in Inside(p)
        case Some(schema) => table.0 == if schema == "" then "public" else schema)
  }

  // ---------------------------------------------------------------------------------------------
  // Nested dictionaries
  // ---------------------------------------------------------------------------------------------

  lemma {:induction false} DictItemsAre(items: seq<Value>, node: Node)
    ensures node in DictItems(items) <==> Dict(node) in items
  {
    if items != [] {
      DictItemsAre(items[1..], node);
      assert items == [items[0]] + items[1..];
    }
  }

  lemma {:induction false} NestedAre(fields: seq<Value>, node: Node)
    ensures node in Nested(fields) <==> exists i | 0 <= i < |fields| :: Holds(fields[i], node, false)
  {
    if fields != [] {
      NestedAre(fields[1..], node);
      if fields[0].Tuple? {
        DictItemsAre(fields[0].items, node);
      }
      assert forall i | 0 <= i < |fields| - 1 :: fields[1..][i] == fields[i + 1];
      assert Holds(fields[0], node, false) ==> node in Nested(fields);
      if i :| 0 <= i < |fields| && Holds(fields[i], node, false) && i > 0 {
        assert Holds(fields[1..][i - 1], node, false);
      }
    }
  }

  /** Every dictionary in the values at any depth. */
  lemma {:induction false} AllDictsAre(values: seq<Value>, node: Node)
    ensures node in AllDicts(values) <==> exists i | 0 <= i < |values| :: Holds(values[i], node, true)
    decreases SizeOfAll(values)
  {
    if values != [] {
      AllDictsAre(values[1..], node);
      if values[0].Tuple? {
        AllDictsAre(values[0].items, node);
        TupleHolds(values[0].items, node);
      }
      assert forall i | 0 <= i < |values| - 1 :: values[1..][i] == values[i + 1];
      assert Holds(values[0], node, true) ==> node in AllDicts(values);
      if i :| 0 <= i < |values| && Holds(values[i], node, true) && i > 0 {
        assert Holds(values[1..][i - 1], node, true);
      }
    }
  }

  function SizeOfAll(values: seq<Value>): nat {
    if values == [] then 0
    else 1 + (if values[0].Tuple? then SizeOfAll(values[0].items) else 0) + SizeOfAll(values[1..])
  }

  lemma TupleHolds(items: seq<Value>, node: Node)
    ensures Holds(Tuple(items), node, true) <==> exists j | 0 <= j < |items| :: Holds(items[j], node, true)
  {
    if j :| 0 <= j < |items| && Holds(items[j], node, true) {
      assert items[j] == Dict(node) || items[j].Tuple?;
    }
    if Holds(Tuple(items), node, true) {
      var j :| 0 <= j < |items| && (items[j] == Dict(node) || (items[j].Tuple? && Holds(items[j], node, true)));
      assert Holds(items[j], node, true);
    }
  }

  lemma {:induction false} BuriedItemsAre(items: seq<Value>, node: Node)
    ensures node in BuriedItems(items)
            <==> exists j | 0 <= j < |items| :: items[j].Tuple? && Holds(items[j], node, true)
  {
    if items != [] {
      BuriedItemsAre(items[1..], node);
      if items[0].Tuple? {
        AllDictsAre(items[0].items, node);
        TupleHolds(items[0].items, node);
      }
      assert forall j | 0 <= j < |items| - 1 :: items[1..][j] == items[j + 1];
      if j :| 0 <= j < |items| && items[j].Tuple? && Holds(items[j], node, true) && j > 0 {
        assert Holds(items[1..][j - 1], node, true);
      }
    }
  }

  /** A tuple holds what it holds at the first level, and what is buried in its tuples. */
  lemma DeepOrBuried(value: Value, node: Node)
    ensures Holds(value, node, true)
            <==> Holds(value, node, false) || (value.Tuple? && node in BuriedItems(value.items))
  {
    if value.Tuple? {
      BuriedItemsAre(value.items, node);
    }
  }

  lemma {:induction false} BuriedAre(fields: seq<Value>, node: Node)
    ensures node in Buried(fields)
            <==> exists i | 0 <= i < |fields| :: fields[i].Tuple? && node in BuriedItems(fields[i].items)
  {
    hide BuriedItems;
    if fields != [] {
      BuriedAre(fields[1..], node);
      assert forall i | 0 <= i < |fields| - 1 :: fields[1..][i] == fields[i + 1];
      if i :| 0 <= i < |fields| && fields[i].Tuple? && node in BuriedItems(fields[i].items) && i > 0 {
        assert node in BuriedItems(fields[1..][i - 1].items);
      }
    }
  }

  /** The nested dictionaries that are looked into. */
  lemma FieldsHold(fields: seq<Value>, node: Node, deep: bool)
    ensures node in Nested(fields) || (deep && node in Buried(fields))
            <==> exists i | 0 <= i < |fields| :: Holds(fields[i], node, deep)
  {
    NestedAre(fields, node);
    BuriedAre(fields, node);
    forall i | 0 <= i < |fields| && deep
      ensures Holds(fields[i], node, true)
              <==> Holds(fields[i], node, false) || (fields[i].Tuple? && node in BuriedItems(fields[i].items))
    {
      DeepOrBuried(fields[i], node);
    }
  }

  // ---------------------------------------------------------------------------------------------
  // One step
  // ---------------------------------------------------------------------------------------------

  lemma {:induction false} FreeOfSome(nodes: seq<Node>, scope: set<string>, deep: bool, table: Table)
    ensures table in FreeOfNodes(nodes, scope, deep) <==> exists n | n in nodes :: table in Free(n, scope, deep)
  {
    if nodes != [] {
      FreeOfSome(nodes[1..], scope, deep, table);
      assert forall n :: n in nodes <==> n == nodes[0] || n in nodes[1..];
      var first, rest := Free(nodes[0], scope, deep), FreeOfNodes(nodes[1..], scope, deep);
      assert FreeOfNodes(nodes, scope, deep) == first + rest;
      if table in first {
        assert nodes[0] in nodes;
      }
    }
  }

  lemma {:induction false} FreeOfSomeCte(ctes: seq<Cte>, scope: set<string>, recursive: bool, deep: bool, table: Table)
    ensures table in FreeOfCtes(ctes, scope, recursive, deep)
            <==> exists i | 0 <= i < |ctes| ::
                   table in Free(ctes[i].node, if recursive then scope else scope + Bound(ctes[..i]), deep)
  {
    hide Free;
    if ctes != [] {
      var rest, name := ctes[1..], ctes[0].ctename;
      var scope' := if recursive then scope else scope + {name};
      FreeOfSomeCte(rest, scope', recursive, deep, table);
      assert scope + Bound(ctes[..0]) == scope;
      forall i | 0 <= i < |rest|
        ensures rest[i] == ctes[i + 1]
        ensures scope + {name} + Bound(rest[..i]) == scope + Bound(ctes[..i + 1])
      {
        assert ctes[..i + 1] == [ctes[0]] + rest[..i];
      }
      if i :| 0 <= i < |ctes|
              && table in Free(ctes[i].node, if recursive then scope else scope + Bound(ctes[..i]), deep) && i > 0 {
        assert table in Free(rest[i - 1].node, if recursive then scope' else scope' + Bound(rest[..i - 1]), deep);
      }
      if i :| 0 <= i < |rest|
              && table in Free(rest[i].node, if recursive then scope' else scope' + Bound(rest[..i]), deep) {
        assert table in Free(ctes[i + 1].node, if recursive then scope else scope + Bound(ctes[..i + 1]), deep);
      }
    }
  }

  ghost predicate FreeFurther(p: Place, table: Table, deep: bool) {
    exists q: Place :: Leads(p, q, deep) && table in Free(q.node, q.scope, deep)
  }

  /** A table of a dictionary is named there, or is a table of a dictionary it leads to. */
  lemma FreeOneStep(p: Place, table: Table, deep: bool)
    ensures table in Free(p.node, p.scope, deep) <==> NamedAt(p, table) || FreeFurther(p, table, deep)
  {
    hide FreeOfNodes;
    hide FreeOfCtes;
    hide Holds;
    var n, inside := p.node, Inside(p);
    assert inside == BodyScope(n, p.scope);
    assert table in Own(n.kind, inside) <==> NamedAt(p, table);
    FieldsFree(p, table, deep);
    CtesFree(p, table, deep);
    FurtherIsEither(p, table, deep);
    assert table in Free(n, p.scope, deep)
           <==> || table in Own(n.kind, inside)
                || (table in FreeOfNodes(Nested(n.fields), inside, deep)
                    || (deep && table in FreeOfNodes(Buried(n.fields), inside, deep)))
                || FreeInCtes(p, table, deep);
  }

  ghost predicate FreeInFields(p: Place, table: Table, deep: bool) {
    exists q: Place :: LeadsToField(p, q, deep) && table in Free(q.node, q.scope, deep)
  }

  ghost predicate FreeInSomeCte(p: Place, table: Table, deep: bool) {
    exists q: Place :: LeadsToCte(p, q) && table in Free(q.node, q.scope, deep)
  }

  ghost predicate FreeInCtes(p: Place, table: Table, deep: bool) {
    && p.node.withClause.Some?
    && var w := p.node.withClause.value;
       table in FreeOfCtes(w.ctes, if w.recursive then p.scope + CteNames(w.ctes) else p.scope, w.recursive, deep)
  }

  lemma FurtherIsEither(p: Place, table: Table, deep: bool)
    ensures FreeFurther(p, table, deep) <==> FreeInFields(p, table, deep) || FreeInSomeCte(p, table, deep)
  {
    hide Free;
    hide LeadsToField;
    hide LeadsToCte;
    if q: Place :| LeadsToField(p, q, deep) && table in Free(q.node, q.scope, deep) {
      assert Leads(p, q, deep);
    }
    if q: Place :| LeadsToCte(p, q) && table in Free(q.node, q.scope, deep) {
      assert Leads(p, q, deep);
    }
  }

  lemma FieldsFree(p: Place, table: Table, deep: bool)
    ensures table in FreeOfNodes(Nested(p.node.fields), Inside(p), deep)
            || (deep && table in FreeOfNodes(Buried(p.node.fields), Inside(p), deep))
            <==> FreeInFields(p, table, deep)
  {
    hide Free;
    hide Holds;
    hide Nested;
    hide Buried;
    var fields, inside := p.node.fields, Inside(p);
    FreeOfSome(Nested(fields), inside, deep, table);
    FreeOfSome(Buried(fields), inside, deep, table);
    if n :| (n in Nested(fields) || (deep && n in Buried(fields))) && table in Free(n, inside, deep) {
      FieldsHold(fields, n, deep);
      assert LeadsToField(p, Place(n, inside), deep);
    }
    if q: Place :| LeadsToField(p, q, deep) && table in Free(q.node, q.scope, deep) {
      FieldsHold(fields, q.node, deep);
    }
  }

  lemma CtesFree(p: Place, table: Table, deep: bool)
    ensures FreeInCtes(p, table, deep) <==> FreeInSomeCte(p, table, deep)
  {
    hide Free;
    hide FreeOfCtes;
    if p.node.withClause.Some? {
      var w := p.node.withClause.value;
      var scope := if w.recursive then p.scope + CteNames(w.ctes) else p.scope;
      assert CteNames(w.ctes) == Bound(w.ctes);
      FreeOfSomeCte(w.ctes, scope, w.recursive, deep, table);
      if i :| 0 <= i < |w.ctes|
              && table in Free(w.ctes[i].node, if w.recursive then scope else scope + Bound(w.ctes[..i]), deep) {
        assert LeadsToCte(p, Place(w.ctes[i].node, p.scope + Bound(if w.recursive then w.ctes else w.ctes[..i])));
      }
      if q: Place :| LeadsToCte(p, q) && table in Free(q.node, q.scope, deep) {
        var i :| 0 <= i < |w.ctes| && q.node == w.ctes[i].node
                 && q.scope == p.scope + Bound(if w.recursive then w.ctes else w.ctes[..i]);
        assert q.scope == if w.recursive then scope else scope + Bound(w.ctes[..i]);
      }
    }
  }

  // ---------------------------------------------------------------------------------------------
  // Trails
  // ---------------------------------------------------------------------------------------------

  ghost predicate Reached(p: Place, table: Table, deep: bool) {
    exists trail :: Trail(trail, deep) && trail[0] == p && NamedAt(trail[|trail| - 1], table)
  }

  lemma {:induction false} HoldsSmaller(value: Value, node: Node, deep: bool)
    requires Holds(value, node, deep)
    ensures SizeOfNode(node) <= SizeOfValue(value)
    decreases value
  {
    if value.Tuple? {
      var j :| 0 <= j < |value.items|
               && (value.items[j] == Dict(node) || (deep && value.items[j].Tuple? && Holds(value.items[j], node, true)));
      if value.items[j] != Dict(node) {
        HoldsSmaller(value.items[j], node, true);
      }
      ValueSmaller(value.items, j);
    }
  }

  lemma {:induction false} ValueSmaller(values: seq<Value>, i: nat)
    requires i < |values|
    ensures SizeOfValue(values[i]) <= SizeOfValues(values)
  {
    if i > 0 {
      ValueSmaller(values[1..], i - 1);
    }
  }

  lemma {:induction false} CteSmaller(ctes: seq<Cte>, i: nat)
    requires i < |ctes|
    ensures SizeOfNode(ctes[i].node) <= SizeOfCtes(ctes)
  {
    if i > 0 {
      CteSmaller(ctes[1..], i - 1);
    }
  }

  lemma LeadsDown(p: Place, q: Place, deep: bool)
    requires Leads(p, q, deep)
    ensures SizeOfNode(q.node) < SizeOfNode(p.node)
  {
    if LeadsToField(p, q, deep) {
      var i :| 0 <= i < |p.node.fields| && Holds(p.node.fields[i], q.node, deep);
      HoldsSmaller(p.node.fields[i], q.node, deep);
      ValueSmaller(p.node.fields, i);
    } else {
      var w := p.node.withClause.value;
      var i :| 0 <= i < |w.ctes| && q.node == w.ctes[i].node
               && q.scope == p.scope + Bound(if w.recursive then w.ctes else w.ctes[..i]);
      CteSmaller(w.ctes, i);
    }
  }

  lemma {:induction false} TrailReads(trail: seq<Place>, table: Table, deep: bool)
    requires Trail(trail, deep) && NamedAt(trail[|trail| - 1], table)
    ensures table in Free(trail[0].node, trail[0].scope, deep)
    decreases |trail|
  {
    hide Free;
    hide Leads;
    FreeOneStep(trail[0], table, deep);
    if |trail| > 1 {
      var rest := trail[1..];
      forall k | 0 < k < |rest| ensures Leads(rest[k - 1], rest[k], deep) {
        assert Leads(trail[k], trail[k + 1], deep);
      }
      TrailReads(rest, table, deep);
      assert Leads(trail[0], rest[0], deep);
    }
  }

  lemma {:induction false} ReadsByTrail(p: Place, table: Table, deep: bool) returns (trail: seq<Place>)
    requires table in Free(p.node, p.scope, deep)
    ensures Trail(trail, deep) && trail[0] == p && NamedAt(trail[|trail| - 1], table)
    decreases SizeOfNode(p.node)
  {
    hide Free;
    hide Leads;
    FreeOneStep(p, table, deep);
    if NamedAt(p, table) {
      trail := [p];
    } else {
      var q: Place :| Leads(p, q, deep) && table in Free(q.node, q.scope, deep);
      LeadsDown(p, q, deep);
      var rest := ReadsByTrail(q, table, deep);
      trail := [p] + rest;
      forall k | 0 < k < |trail| ensures Leads(trail[k - 1], trail[k], deep) {
        if k > 1 {
          assert Leads(rest[k - 2], rest[k - 1], deep);
        }
      }
    }
  }

  /** The tables of a query are those named at the end of a trail: with the schema that is written there,
      and with public for a missing one, unless the name is in scope, or an empty one. */
  lemma TablesAreNamed(n: Node, scope: set<string>, deep: bool, table: Table)
    ensures table in Free(n, scope, deep) <==> Reached(Place(n, scope), table, deep)
  {
    hide Free;
    hide Leads;
    if table in Free(n, scope, deep) {
      var trail := ReadsByTrail(Place(n, scope), table, deep);
    }
    if trail :| Trail(trail, deep) && trail[0] == Place(n, scope) && NamedAt(trail[|trail| - 1], table) {
      TrailReads(trail, table, deep);
    }
  }

  /** The walk gets to a dictionary like this. */
  ghost predicate Met(root: Node, kind: Kind) {
    exists trail: seq<Place> ::
      Trail(trail, false) && trail[0] == Place(root, {}) && trail[|trail| - 1].node.kind == kind
  }

  /** Wherever the walk gets to, a table written with a schema is found under that schema; and what is
      found is written with its schema somewhere, or is public and written without one. */
  lemma SchemasAreKept(root: Node, table: Table)
    ensures Met(root, RangeVar(Some(table.0), table.1)) && table.0 != "" ==> table in Free(root, {}, false)
    ensures table in Free(root, {}, false) ==>
              || Met(root, RangeVar(Some(table.0), table.1))
              || (table.0 == "public" && (Met(root, RangeVar(None, table.1)) || Met(root, RangeVar(Some(""), table.1))))
  {
    hide Free;
    hide Leads;
    TablesAreNamed(root, {}, false, table);
    if trail: seq<Place> :| Trail(trail, false) && trail[0] == Place(root, {})
                            && trail[|trail| - 1].node.kind == RangeVar(Some(table.0), table.1) && table.0 != "" {
      assert NamedAt(trail[|trail| - 1], table);
    }
    if trail: seq<Place> :| Trail(trail, false) && trail[0] == Place(root, {}) && NamedAt(trail[|trail| - 1], table) {
      assert Met(root, trail[|trail| - 1].node.kind);
    }
  }
}
