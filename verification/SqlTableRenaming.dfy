/** Renaming a common table expression anywhere in a query. */
module SqlTableRenaming {
  import opened SqlTableLaws
  import opened SqlTables
  import opened Wrappers

  ghost predicate RenamedHere(n: Node, n': Node) {
    exists i: nat, y ::
      n.withClause.Some? && i < |n.withClause.value.ctes| && Fresh(n, y) && n' == RenameCte(n, i, y)
  }

  /** The same query but for common table expressions that were renamed, each consistently and to a fresh
      name: of this statement, or inside it at any depth. */
  ghost predicate Variant(n: Node, n': Node)
    decreases n, 1
  {
    || RenamedHere(n, n')
    || (&& n.kind == n'.kind && VariantValues(n.fields, n'.fields)
        && match n.withClause
           case None => n'.withClause.None?
           case Some(w) =>
             n'.withClause.Some? && n'.withClause.value.recursive == w.recursive
             && VariantCtes(w.ctes, n'.withClause.value.ctes))
  }

  ghost predicate VariantCtes(ctes: seq<Cte>, ctes': seq<Cte>)
    decreases ctes, 0
  {
    if ctes == [] then ctes' == []
    else
      && ctes' != [] && ctes'[0].ctename == ctes[0].ctename && Variant(ctes[0].node, ctes'[0].node)
      && VariantCtes(ctes[1..], ctes'[1..])
  }

  ghost predicate VariantValues(values: seq<Value>, values': seq<Value>)
    decreases values, 0
  {
    if values == [] then values' == []
    else values' != [] && VariantValue(values[0], values'[0]) && VariantValues(values[1..], values'[1..])
  }

  ghost predicate VariantValue(value: Value, value': Value)
    decreases value, 2
  {
    match value
    case Scalar => value'.Scalar?
    case Dict(n) => value'.Dict? && Variant(n, value'.node)
    case Tuple(items) => value'.Tuple? && VariantValues(items, value'.items)
  }

  // ---------------------------------------------------------------------------------------------
  // The edges of variants lead to variants
  // ---------------------------------------------------------------------------------------------

  ghost predicate VariantNodes(nodes: seq<Node>, nodes': seq<Node>) {
    |nodes| == |nodes'| && forall i | 0 <= i < |nodes| :: Variant(nodes[i], nodes'[i])
  }

  lemma VariantAppend(a: seq<Node>, a': seq<Node>, b: seq<Node>, b': seq<Node>)
    requires VariantNodes(a, a') && VariantNodes(b, b')
    ensures VariantNodes(a + b, a' + b')
  {
    hide Variant;
  }

  lemma {:induction false} VariantDictItems(values: seq<Value>, values': seq<Value>)
    requires VariantValues(values, values')
    ensures VariantNodes(DictItems(values), DictItems(values'))
  {
    hide Variant;
    if values != [] {
      VariantDictItems(values[1..], values'[1..]);
      if values[0].Dict? {
        VariantAppend([values[0].node], [values'[0].node], DictItems(values[1..]), DictItems(values'[1..]));
      }
    }
  }

  lemma {:induction false} VariantNested(values: seq<Value>, values': seq<Value>)
    requires VariantValues(values, values')
    ensures VariantNodes(Nested(values), Nested(values'))
  {
    hide Variant;
    hide DictItems;
    hide VariantNodes;
    if values == [] {
      NoVariants();
    } else {
      VariantNested(values[1..], values'[1..]);
      match values[0] {
        case Scalar =>
          assert Nested(values) == Nested(values[1..]) && Nested(values') == Nested(values'[1..]);
        case Dict(n) =>
          OneVariant(n, values'[0].node);
          VariantAppend([n], [values'[0].node], Nested(values[1..]), Nested(values'[1..]));
        case Tuple(items) =>
          VariantDictItems(items, values'[0].items);
          VariantAppend(DictItems(items), DictItems(values'[0].items), Nested(values[1..]), Nested(values'[1..]));
      }
    }
  }

  lemma NoVariants()
    ensures VariantNodes([], [])
  {
  }

  lemma OneVariant(n: Node, n': Node)
    requires Variant(n, n')
    ensures VariantNodes([n], [n'])
  {
    hide Variant;
  }

  lemma {:induction false} VariantAllDicts(values: seq<Value>, values': seq<Value>)
    requires VariantValues(values, values')
    ensures VariantNodes(AllDicts(values), AllDicts(values'))
    decreases values, 0
  {
    hide Variant;
    hide VariantNodes;
    if values == [] {
      NoVariants();
    } else {
      VariantAllDicts(values[1..], values'[1..]);
      VariantAllDictsOf(values[0], values'[0]);
      VariantAppend(AllDictsOf(values[0]), AllDictsOf(values'[0]), AllDicts(values[1..]), AllDicts(values'[1..]));
    }
  }

  lemma {:induction false} VariantAllDictsOf(value: Value, value': Value)
    requires VariantValue(value, value')
    ensures VariantNodes(AllDictsOf(value), AllDictsOf(value'))
    decreases value, 1
  {
    hide Variant;
    hide VariantNodes;
    match value {
      case Scalar => NoVariants();
      case Dict(n) => OneVariant(n, value'.node);
      case Tuple(items) => VariantAllDicts(items, value'.items);
    }
  }

  lemma {:induction false} VariantBuriedItems(values: seq<Value>, values': seq<Value>)
    requires VariantValues(values, values')
    ensures VariantNodes(BuriedItems(values), BuriedItems(values'))
  {
    hide Variant;
    hide VariantNodes;
    NoVariants();
    if values != [] {
      VariantBuriedItems(values[1..], values'[1..]);
      var first := if values[0].Tuple? then AllDicts(values[0].items) else [];
      var first' := if values'[0].Tuple? then AllDicts(values'[0].items) else [];
      if values[0].Tuple? {
        VariantAllDicts(values[0].items, values'[0].items);
      }
      VariantAppend(first, first', BuriedItems(values[1..]), BuriedItems(values'[1..]));
    }
  }

  lemma {:induction false} VariantBuried(values: seq<Value>, values': seq<Value>)
    requires VariantValues(values, values')
    ensures VariantNodes(Buried(values), Buried(values'))
  {
    hide Variant;
    hide VariantNodes;
    NoVariants();
    if values != [] {
      VariantBuried(values[1..], values'[1..]);
      var first := if values[0].Tuple? then BuriedItems(values[0].items) else [];
      var first' := if values'[0].Tuple? then BuriedItems(values'[0].items) else [];
      if values[0].Tuple? {
        VariantBuriedItems(values[0].items, values'[0].items);
      }
      VariantAppend(first, first', Buried(values[1..]), Buried(values'[1..]));
    }
  }

  // ---------------------------------------------------------------------------------------------
  // Variants read the same tables
  // ---------------------------------------------------------------------------------------------

  lemma {:induction false} VariantNames(ctes: seq<Cte>, ctes': seq<Cte>)
    requires VariantCtes(ctes, ctes')
    ensures CteNames(ctes) == CteNames(ctes')
  {
    hide Variant;
    if ctes != [] {
      VariantNames(ctes[1..], ctes'[1..]);
      assert ctes == [ctes[0]] + ctes[1..] && ctes' == [ctes'[0]] + ctes'[1..];
      CteNamesUnion([ctes[0]], ctes[1..]);
      CteNamesUnion([ctes'[0]], ctes'[1..]);
    }
  }

  /** Renaming common table expressions, wherever they are in a query, does not change its tables. */
  lemma {:induction false} VariantsAgree(n: Node, n': Node, scope: set<string>, deep: bool)
    requires Variant(n, n')
    ensures Free(n, scope, deep) == Free(n', scope, deep)
    decreases SizeOfNode(n), 0
  {
    hide Fresh;
    hide RenameCte;
    if RenamedHere(n, n') {
      var i: nat, y :| n.withClause.Some? && i < |n.withClause.value.ctes| && Fresh(n, y) && n' == RenameCte(n, i, y);
      RenamingIsInvisible(n, i, y, scope, deep);
    } else {
      hide RenamedHere;
      if n.withClause.Some? {
        var w, w' := n.withClause.value, n'.withClause.value;
        VariantNames(w.ctes, w'.ctes);
        VariantCtesAgree(w.ctes, w'.ctes, if w.recursive then scope + CteNames(w.ctes) else scope, w.recursive, deep);
      }
      VariantBodiesAgree(n, n', BodyScope(n, scope), deep);
    }
  }

  lemma {:induction false} VariantBodiesAgree(n: Node, n': Node, scope: set<string>, deep: bool)
    requires n.kind == n'.kind && VariantValues(n.fields, n'.fields)
    ensures FreeOfBody(n, scope, deep) == FreeOfBody(n', scope, deep)
    decreases SizeOfValues(n.fields), 2
  {
    hide Variant;
    hide VariantNodes;
    VariantNested(n.fields, n'.fields);
    VariantBuried(n.fields, n'.fields);
    VariantNodesAgree(Nested(n.fields), Nested(n'.fields), scope, deep);
    VariantNodesAgree(Buried(n.fields), Buried(n'.fields), scope, deep);
  }

  lemma {:induction false} VariantCtesAgree(ctes: seq<Cte>, ctes': seq<Cte>, scope: set<string>, recursive: bool, deep: bool)
    requires VariantCtes(ctes, ctes')
    ensures FreeOfCtes(ctes, scope, recursive, deep) == FreeOfCtes(ctes', scope, recursive, deep)
    decreases SizeOfCtes(ctes), 1
  {
    hide Variant;
    if ctes != [] {
      VariantsAgree(ctes[0].node, ctes'[0].node, scope, deep);
      VariantCtesAgree(ctes[1..], ctes'[1..], if recursive then scope else scope + {ctes[0].ctename}, recursive, deep);
    }
  }

  lemma {:induction false} VariantNodesAgree(nodes: seq<Node>, nodes': seq<Node>, scope: set<string>, deep: bool)
    requires VariantNodes(nodes, nodes')
    ensures FreeOfNodes(nodes, scope, deep) == FreeOfNodes(nodes', scope, deep)
    decreases SizeOfNodes(nodes), 1
  {
    hide Variant;
    if nodes != [] {
      VariantsAgree(nodes[0], nodes'[0], scope, deep);
      VariantNodesAgree(nodes[1..], nodes'[1..], scope, deep);
    }
  }
}
