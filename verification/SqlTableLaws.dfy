/** What the extracted tables of a query do not depend on, and what they leave out. */
module SqlTableLaws {
  import opened SqlTables
  import opened Wrappers

  // ---------------------------------------------------------------------------------------------
  // A scope subtracts names
  // ---------------------------------------------------------------------------------------------

  /** The tables read under an explicit schema. No common table expression hides these. */
  function Qualified(n: Node, deep: bool): set<Table>
    decreases SizeOfNode(n), 0
  {
    QualifiedInBody(n, deep)
    + (match n.withClause case None => {} case Some(w) => QualifiedInCtes(w.ctes, deep))
  }

  function QualifiedInBody(n: Node, deep: bool): set<Table>
    decreases SizeOfValues(n.fields), 2
  {
    (if n.kind.RangeVar? && n.kind.schemaname.Some?
     then {(SchemaOf(n.kind.schemaname), n.kind.relname)} else {})
    + QualifiedInNodes(Nested(n.fields), deep)
    + (if deep then QualifiedInNodes(Buried(n.fields), deep) else {})
  }

  function QualifiedInCtes(ctes: seq<Cte>, deep: bool): set<Table>
    decreases SizeOfCtes(ctes), 1
  {
    if ctes == [] then {} else Qualified(ctes[0].node, deep) + QualifiedInCtes(ctes[1..], deep)
  }

  function QualifiedInNodes(nodes: seq<Node>, deep: bool): set<Table>
    decreases SizeOfNodes(nodes), 1
  {
    if nodes == [] then {} else Qualified(nodes[0], deep) + QualifiedInNodes(nodes[1..], deep)
  }

  /** The free names of a query, computed upwards: a binder takes its name away from what it scopes
      over. */
  function Bare(n: Node, deep: bool): set<string>
    decreases SizeOfNode(n), 0
  {
    match n.withClause
    case None => BareInBody(n, deep)
    case Some(w) =>
      (BareInBody(n, deep) - CteNames(w.ctes))
      + (BareInCtes(w.ctes, w.recursive, deep) - (if w.recursive then CteNames(w.ctes) else {}))
  }

  function BareInBody(n: Node, deep: bool): set<string>
    decreases SizeOfValues(n.fields), 2
  {
    (if n.kind.RangeVar? && n.kind.schemaname.None? then {n.kind.relname} else {})
    + BareInNodes(Nested(n.fields), deep)
    + (if deep then BareInNodes(Buried(n.fields), deep) else {})
  }

  function BareInCtes(ctes: seq<Cte>, recursive: bool, deep: bool): set<string>
    decreases SizeOfCtes(ctes), 1
  {
    if ctes == [] then {}
    else Bare(ctes[0].node, deep)
         + (BareInCtes(ctes[1..], recursive, deep) - (if recursive then {} else {ctes[0].ctename}))
  }

  function BareInNodes(nodes: seq<Node>, deep: bool): set<string>
    decreases SizeOfNodes(nodes), 1
  {
    if nodes == [] then {} else Bare(nodes[0], deep) + BareInNodes(nodes[1..], deep)
  }

  function Public(names: set<string>): set<Table> {
    set r | r in names :: ("public", r)
  }

  ghost predicate Splits(free: set<Table>, qualified: set<Table>, bare: set<string>, scope: set<string>) {
    free == qualified + Public(bare - scope)
  }

  lemma SplitsUnion(f: set<Table>, q: set<Table>, b: set<string>,
                    f': set<Table>, q': set<Table>, b': set<string>, scope: set<string>)
    requires Splits(f, q, b, scope) && Splits(f', q', b', scope)
    ensures Splits(f + f', q + q', b + b', scope)
  {
    assert (b + b') - scope == (b - scope) + (b' - scope);
    assert Public((b - scope) + (b' - scope)) == Public(b - scope) + Public(b' - scope);
  }

  lemma SplitsInner(f: set<Table>, q: set<Table>, b: set<string>, scope: set<string>, inner: set<string>)
    requires Splits(f, q, b, scope + inner)
    ensures Splits(f, q, b - inner, scope)
  {
    assert (b - inner) - scope == b - (scope + inner);
  }

  /** Whatever is already bound, the tables of a query are the qualified ones and, as public, those
      of its free names that are not bound. */
  lemma {:induction false} ScopeSubtracts(n: Node, scope: set<string>, deep: bool)
    ensures Free(n, scope, deep) == Qualified(n, deep) + Public(Bare(n, deep) - scope)
    decreases SizeOfNode(n), 0
  {
    var f, q, b := FreeOfBody(n, BodyScope(n, scope), deep), QualifiedInBody(n, deep), BareInBody(n, deep);
    ScopeSubtractsInBody(n, BodyScope(n, scope), deep);
    if n.withClause.Some? {
      var w := n.withClause.value;
      var inner := CteNames(w.ctes);
      SplitsInner(f, q, b, scope, inner);
      var own := if w.recursive then inner else {};
      assert scope + own == if w.recursive then scope + inner else scope;
      ScopeSubtractsInCtes(w.ctes, scope + own, w.recursive, deep);
      var fc, qc, bc := FreeOfCtes(w.ctes, scope + own, w.recursive, deep),
                        QualifiedInCtes(w.ctes, deep), BareInCtes(w.ctes, w.recursive, deep);
      SplitsInner(fc, qc, bc, scope, own);
      SplitsUnion(f, q, b - inner, fc, qc, bc - own, scope);
    }
  }

  lemma {:induction false} ScopeSubtractsInBody(n: Node, scope: set<string>, deep: bool)
    ensures Splits(FreeOfBody(n, scope, deep), QualifiedInBody(n, deep), BareInBody(n, deep), scope)
    decreases SizeOfValues(n.fields), 2
  {
    var f, q, b := Own(n.kind, scope),
                   if n.kind.RangeVar? && n.kind.schemaname.Some?
                   then {(SchemaOf(n.kind.schemaname), n.kind.relname)} else {},
                   if n.kind.RangeVar? && n.kind.schemaname.None? then {n.kind.relname} else {};
    assert Splits(f, q, b, scope);
    var nested, buried := Nested(n.fields), Buried(n.fields);
    ScopeSubtractsInNodes(nested, scope, deep);
    SplitsUnion(f, q, b, FreeOfNodes(nested, scope, deep), QualifiedInNodes(nested, deep),
                BareInNodes(nested, deep), scope);
    if deep {
      ScopeSubtractsInNodes(buried, scope, deep);
      SplitsUnion(f + FreeOfNodes(nested, scope, deep), q + QualifiedInNodes(nested, deep),
                  b + BareInNodes(nested, deep), FreeOfNodes(buried, scope, deep),
                  QualifiedInNodes(buried, deep), BareInNodes(buried, deep), scope);
    }
  }

  lemma {:induction false} ScopeSubtractsInCtes(ctes: seq<Cte>, scope: set<string>, recursive: bool, deep: bool)
    ensures Splits(FreeOfCtes(ctes, scope, recursive, deep), QualifiedInCtes(ctes, deep),
                   BareInCtes(ctes, recursive, deep), scope)
    decreases SizeOfCtes(ctes), 1
  {
    if ctes != [] {
      var own := if recursive then {} else {ctes[0].ctename};
      assert scope + own == if recursive then scope else scope + {ctes[0].ctename};
      ScopeSubtracts(ctes[0].node, scope, deep);
      ScopeSubtractsInCtes(ctes[1..], scope + own, recursive, deep);
      var f, q, b := FreeOfCtes(ctes[1..], scope + own, recursive, deep),
                     QualifiedInCtes(ctes[1..], deep), BareInCtes(ctes[1..], recursive, deep);
      SplitsInner(f, q, b, scope, own);
      SplitsUnion(Free(ctes[0].node, scope, deep), Qualified(ctes[0].node, deep), Bare(ctes[0].node, deep),
                  f, q, b - own, scope);
    }
  }

  lemma {:induction false} ScopeSubtractsInNodes(nodes: seq<Node>, scope: set<string>, deep: bool)
    ensures Splits(FreeOfNodes(nodes, scope, deep), QualifiedInNodes(nodes, deep), BareInNodes(nodes, deep), scope)
    decreases SizeOfNodes(nodes), 1
  {
    if nodes != [] {
      ScopeSubtracts(nodes[0], scope, deep);
      ScopeSubtractsInNodes(nodes[1..], scope, deep);
      SplitsUnion(Free(nodes[0], scope, deep), Qualified(nodes[0], deep), Bare(nodes[0], deep),
                  FreeOfNodes(nodes[1..], scope, deep), QualifiedInNodes(nodes[1..], deep),
                  BareInNodes(nodes[1..], deep), scope);
    }
  }

  /** More names in scope can only take away public tables of those very names. */
  lemma LargerScopeHidesOnlyItsNames(n: Node, scope: set<string>, more: set<string>, deep: bool)
    ensures Free(n, scope + more, deep) <= Free(n, scope, deep)
    ensures Free(n, scope, deep) - Free(n, scope + more, deep) <= Public(more)
  {
    ScopeSubtracts(n, scope, deep);
    ScopeSubtracts(n, scope + more, deep);
  }

  // ---------------------------------------------------------------------------------------------
  // What the walk does not see
  // ---------------------------------------------------------------------------------------------

  /** The tables read only below a tuple inside a tuple, such as a subquery in a VALUES list. */
  function Hidden(n: Node, scope: set<string>): set<Table>
    decreases SizeOfNode(n), 0
  {
    (match n.withClause
     case None => {}
     case Some(w) =>
       HiddenInCtes(w.ctes, if w.recursive then scope + CteNames(w.ctes) else scope, w.recursive))
    + HiddenInNodes(Nested(n.fields), BodyScope(n, scope))
    + FreeOfNodes(Buried(n.fields), BodyScope(n, scope), true)
  }

  function HiddenInCtes(ctes: seq<Cte>, scope: set<string>, recursive: bool): set<Table>
    decreases SizeOfCtes(ctes), 1
  {
    if ctes == [] then {}
    else Hidden(ctes[0].node, scope)
         + HiddenInCtes(ctes[1..], if recursive then scope else scope + {ctes[0].ctename}, recursive)
  }

  function HiddenInNodes(nodes: seq<Node>, scope: set<string>): set<Table>
    decreases SizeOfNodes(nodes), 1
  {
    if nodes == [] then {} else Hidden(nodes[0], scope) + HiddenInNodes(nodes[1..], scope)
  }

  /** The walk finds every table of the query exactly when the hidden ones are also read elsewhere. */
  lemma {:induction false} WalkMissesHidden(n: Node, scope: set<string>)
    ensures Free(n, scope, true) == Free(n, scope, false) + Hidden(n, scope)
    ensures Free(n, scope, true) == Free(n, scope, false) <==> Hidden(n, scope) <= Free(n, scope, false)
    decreases SizeOfNode(n), 0
  {
    var s := BodyScope(n, scope);
    WalkMissesHiddenInNodes(Nested(n.fields), s);
    if n.withClause.Some? {
      var w := n.withClause.value;
      WalkMissesHiddenInCtes(w.ctes, if w.recursive then scope + CteNames(w.ctes) else scope, w.recursive);
    }
  }

  lemma {:induction false} WalkMissesHiddenInCtes(ctes: seq<Cte>, scope: set<string>, recursive: bool)
    ensures FreeOfCtes(ctes, scope, recursive, true)
            == FreeOfCtes(ctes, scope, recursive, false) + HiddenInCtes(ctes, scope, recursive)
    decreases SizeOfCtes(ctes), 1
  {
    if ctes != [] {
      WalkMissesHidden(ctes[0].node, scope);
      WalkMissesHiddenInCtes(ctes[1..], if recursive then scope else scope + {ctes[0].ctename}, recursive);
    }
  }

  lemma {:induction false} WalkMissesHiddenInNodes(nodes: seq<Node>, scope: set<string>)
    ensures FreeOfNodes(nodes, scope, true) == FreeOfNodes(nodes, scope, false) + HiddenInNodes(nodes, scope)
    decreases SizeOfNodes(nodes), 1
  {
    if nodes != [] {
      WalkMissesHidden(nodes[0], scope);
      WalkMissesHiddenInNodes(nodes[1..], scope);
    }
  }

  /** `INSERT INTO a VALUES ((SELECT ... FROM b))`: the row is a tuple inside the tuple of rows, so
      the query reads b and the walk does not say so. */
  lemma SubqueryInValuesIsMissed()
    ensures var a, b := Node(RangeVar(None, "a"), None, []), Node(RangeVar(None, "b"), None, []);
            var insert := Node(OtherKind, None, [Dict(a), Tuple([Tuple([Dict(b)])])]);
            Free(insert, {}, false) == {("public", "a")}
            && Free(insert, {}, true) == {("public", "a"), ("public", "b")}
  {
    var a, b := Node(RangeVar(None, "a"), None, []), Node(RangeVar(None, "b"), None, []);
    var rows := Tuple([Tuple([Dict(b)])]);
    var fields := [Dict(a), rows];
    assert fields[1..] == [rows] && [rows][1..] == [];
    assert Nested([rows]) == [] && Nested(fields) == [a] by {
      assert rows.items[1..] == [];
      assert DictItems(rows.items) == [];
    }
    assert BuriedItems(rows.items) == [b] by {
      assert rows.items[1..] == [] && rows.items[0].items[1..] == [];
      assert AllDicts(rows.items[0].items) == [b];
    }
    assert Buried(fields) == [b];
    assert [a][1..] == [] && [b][1..] == [];
    var insert := Node(OtherKind, None, fields);
    assert Free(a, {}, false) == {("public", "a")} == Free(a, {}, true);
    assert Free(b, {}, true) == {("public", "b")};
    assert FreeOfNodes([a], {}, false) == {("public", "a")} == FreeOfNodes([a], {}, true);
    assert FreeOfNodes([b], {}, true) == {("public", "b")};
    assert Free(insert, {}, false) == {("public", "a")};
    assert insert == Node(OtherKind, None, [Dict(a), Tuple([Tuple([Dict(b)])])]);
  }

  // ---------------------------------------------------------------------------------------------
  // Renaming a common table expression
  // ---------------------------------------------------------------------------------------------

  /** No binder in `n` introduces `y` and no unqualified table is called `y`. */
  predicate Fresh(n: Node, y: string)
    decreases SizeOfNode(n), 0
  {
    && !(n.kind.RangeVar? && n.kind.schemaname.None? && n.kind.relname == y)
    && (n.withClause.Some?
        ==> y !in CteNames(n.withClause.value.ctes) && FreshInCtes(n.withClause.value.ctes, y))
    && FreshInNodes(Nested(n.fields), y)
    && FreshInNodes(Buried(n.fields), y)
  }

  predicate FreshInCtes(ctes: seq<Cte>, y: string)
    decreases SizeOfCtes(ctes), 1
  {
    ctes != [] ==> Fresh(ctes[0].node, y) && FreshInCtes(ctes[1..], y)
  }

  predicate FreshInNodes(nodes: seq<Node>, y: string)
    decreases SizeOfNodes(nodes), 1
  {
    nodes != [] ==> Fresh(nodes[0], y) && FreshInNodes(nodes[1..], y)
  }

  /** Replaces the free unqualified occurrences of `x` by `y`, stopping where `x` is bound again. */
  function Rename(n: Node, x: string, y: string): Node
    decreases n, 1
  {
    var withClause := match n.withClause
                      case None => None
                      case Some(w) =>
                        Some(if w.recursive && x in CteNames(w.ctes) then w
                             else With(w.recursive, RenameInCtes(w.ctes, x, y)));
    if n.withClause.Some? && x in CteNames(n.withClause.value.ctes) then n.(withClause := withClause)
    else Node(RenameKind(n.kind, x, y), withClause, RenameInValues(n.fields, x, y))
  }

  function RenameKind(kind: Kind, x: string, y: string): Kind {
    if kind == RangeVar(None, x) then RangeVar(None, y) else kind
  }

  /** A plain WITH hides `x` from the siblings after the one called `x`. */
  function RenameInCtes(ctes: seq<Cte>, x: string, y: string): seq<Cte>
    decreases ctes, 0
  {
    if ctes == [] then []
    else [Cte(ctes[0].ctename, Rename(ctes[0].node, x, y))]
         + (if ctes[0].ctename == x then ctes[1..] else RenameInCtes(ctes[1..], x, y))
  }

  function RenameInValues(values: seq<Value>, x: string, y: string): seq<Value>
    decreases values, 0
  {
    if values == [] then [] else [RenameInValue(values[0], x, y)] + RenameInValues(values[1..], x, y)
  }

  function RenameInValue(value: Value, x: string, y: string): Value
    decreases value, 2
  {
    match value
    case Scalar => Scalar
    case Dict(n) => Dict(Rename(n, x, y))
    case Tuple(items) => Tuple(RenameInValues(items, x, y))
  }

  function RenameInNodes(nodes: seq<Node>, x: string, y: string): seq<Node> {
    if nodes == [] then [] else [Rename(nodes[0], x, y)] + RenameInNodes(nodes[1..], x, y)
  }

  lemma {:induction false} RenameInNodesAppend(a: seq<Node>, b: seq<Node>, x: string, y: string)
    ensures RenameInNodes(a + b, x, y) == RenameInNodes(a, x, y) + RenameInNodes(b, x, y)
  {
    if a == [] {
      assert a + b == b;
    } else {
      assert (a + b)[1..] == a[1..] + b;
      RenameInNodesAppend(a[1..], b, x, y);
    }
  }

  lemma {:induction false} RenameNested(fields: seq<Value>, x: string, y: string)
    ensures Nested(RenameInValues(fields, x, y)) == RenameInNodes(Nested(fields), x, y)
    ensures DictItems(RenameInValues(fields, x, y)) == RenameInNodes(DictItems(fields), x, y)
    decreases fields
  {
    if fields != [] {
      var renamed := RenameInValues(fields, x, y);
      assert renamed[1..] == RenameInValues(fields[1..], x, y);
      RenameNested(fields[1..], x, y);
      match fields[0] {
        case Scalar =>
          RenameInNodesAppend([], Nested(fields[1..]), x, y);
        case Dict(n) =>
          assert RenameInNodes([n], x, y) == [Rename(n, x, y)];
          RenameInNodesAppend([n], Nested(fields[1..]), x, y);
          RenameInNodesAppend([n], DictItems(fields[1..]), x, y);
        case Tuple(items) =>
          RenameNested(items, x, y);
          RenameInNodesAppend(DictItems(items), Nested(fields[1..]), x, y);
      }
    }
  }

  lemma {:induction false} RenameAllDicts(values: seq<Value>, x: string, y: string)
    ensures AllDicts(RenameInValues(values, x, y)) == RenameInNodes(AllDicts(values), x, y)
    ensures BuriedItems(RenameInValues(values, x, y)) == RenameInNodes(BuriedItems(values), x, y)
    decreases values
  {
    if values != [] {
      assert RenameInValues(values, x, y)[1..] == RenameInValues(values[1..], x, y);
      RenameAllDicts(values[1..], x, y);
      var value := values[0];
      if value.Tuple? {
        RenameAllDicts(value.items, x, y);
        RenameInNodesAppend(AllDicts(value.items), BuriedItems(values[1..]), x, y);
      } else {
        RenameInNodesAppend([], BuriedItems(values[1..]), x, y);
      }
      if value.Dict? {
        assert RenameInNodes([value.node], x, y) == [Rename(value.node, x, y)];
      }
      assert AllDictsOf(RenameInValue(value, x, y)) == RenameInNodes(AllDictsOf(value), x, y);
      RenameInNodesAppend(AllDictsOf(value), AllDicts(values[1..]), x, y);
    }
  }

  lemma {:induction false} RenameBuried(fields: seq<Value>, x: string, y: string)
    ensures Buried(RenameInValues(fields, x, y)) == RenameInNodes(Buried(fields), x, y)
  {
    if fields != [] {
      assert RenameInValues(fields, x, y)[1..] == RenameInValues(fields[1..], x, y);
      RenameBuried(fields[1..], x, y);
      var first := if fields[0].Tuple? then BuriedItems(fields[0].items) else [];
      if fields[0].Tuple? {
        RenameAllDicts(fields[0].items, x, y);
      }
      RenameInNodesAppend(first, Buried(fields[1..]), x, y);
    }
  }

  function Swap(names: set<string>, x: string, y: string): set<string> {
    if x in names then names - {x} + {y} else names
  }

  lemma SwapUnion(a: set<string>, b: set<string>, x: string, y: string)
    requires y !in a && y !in b
    ensures Swap(a + b, x, y) == Swap(a, x, y) + Swap(b, x, y)
  {
  }

  lemma SwapMinus(a: set<string>, names: set<string>, x: string, y: string)
    requires y !in a && y !in names
    ensures x in names ==> Swap(a - names, x, y) == a - names
    ensures x !in names ==> Swap(a - names, x, y) == Swap(a, x, y) - names
  {
  }

  ghost predicate Swaps(n: Node, n': Node, x: string, y: string, deep: bool) {
    && y !in Bare(n, deep)
    && Bare(n', deep) == Swap(Bare(n, deep), x, y)
    && Qualified(n', deep) == Qualified(n, deep)
  }

  /** Renaming a free name to a fresh one renames it in the free names, and changes nothing else. */
  lemma {:induction false} RenameSwaps(n: Node, x: string, y: string, deep: bool)
    requires Fresh(n, y)
    ensures Swaps(n, Rename(n, x, y), x, y, deep)
    decreases SizeOfNode(n), 0
  {
    RenameSwapsInBody(n, x, y, deep);
    var n' := Rename(n, x, y);
    if n.withClause.None? {
      assert BareInBody(n', deep) == BareInBody(RenameBody(n, x, y), deep);
      assert QualifiedInBody(n', deep) == QualifiedInBody(RenameBody(n, x, y), deep);
    } else {
      var w := n.withClause.value;
      RenameSwapsInCtes(w.ctes, w.recursive, x, y, deep);
      RenameInCtesNames(w.ctes, x, y);
      if x in CteNames(w.ctes) {
        RenameSwapsBound(n, x, y, deep);
      } else {
        RenameSwapsUnbound(n, x, y, deep);
      }
    }
  }

  function RenameBody(n: Node, x: string, y: string): Node {
    Node(RenameKind(n.kind, x, y), None, RenameInValues(n.fields, x, y))
  }

  lemma RenameSwapsBound(n: Node, x: string, y: string, deep: bool)
    requires n.withClause.Some? && x in CteNames(n.withClause.value.ctes) && y !in CteNames(n.withClause.value.ctes)
    requires var w := n.withClause.value;
             y !in BareInBody(n, deep) && y !in BareInCtes(w.ctes, w.recursive, deep)
             && QualifiedInCtes(RenameInCtes(w.ctes, x, y), deep) == QualifiedInCtes(w.ctes, deep)
             && (w.recursive || BareInCtes(RenameInCtes(w.ctes, x, y), w.recursive, deep)
                                == Swap(BareInCtes(w.ctes, w.recursive, deep), x, y))
             && CteNames(RenameInCtes(w.ctes, x, y)) == CteNames(w.ctes)
    ensures Swaps(n, Rename(n, x, y), x, y, deep)
  {
    var w, n' := n.withClause.value, Rename(n, x, y);
    var names, b := CteNames(w.ctes), BareInBody(n, deep);
    var bc := BareInCtes(w.ctes, w.recursive, deep);
    assert BareInBody(n', deep) == b && QualifiedInBody(n', deep) == QualifiedInBody(n, deep);
    SwapMinus(b, names, x, y);
    if w.recursive {
      SwapMinus(bc, names, x, y);
      SwapUnion(b - names, bc - names, x, y);
    } else {
      SwapMinus(bc, {}, x, y);
      SwapUnion(b - names, bc, x, y);
      assert bc - {} == bc;
    }
  }

  lemma RenameSwapsUnbound(n: Node, x: string, y: string, deep: bool)
    requires n.withClause.Some? && x !in CteNames(n.withClause.value.ctes) && y !in CteNames(n.withClause.value.ctes)
    requires var w := n.withClause.value;
             y !in BareInBody(n, deep) && y !in BareInCtes(w.ctes, w.recursive, deep)
             && QualifiedInCtes(RenameInCtes(w.ctes, x, y), deep) == QualifiedInCtes(w.ctes, deep)
             && BareInCtes(RenameInCtes(w.ctes, x, y), w.recursive, deep)
                == Swap(BareInCtes(w.ctes, w.recursive, deep), x, y)
             && CteNames(RenameInCtes(w.ctes, x, y)) == CteNames(w.ctes)
    requires BareInBody(RenameBody(n, x, y), deep) == Swap(BareInBody(n, deep), x, y)
    requires QualifiedInBody(RenameBody(n, x, y), deep) == QualifiedInBody(n, deep)
    ensures Swaps(n, Rename(n, x, y), x, y, deep)
  {
    var w, n' := n.withClause.value, Rename(n, x, y);
    var names, b := CteNames(w.ctes), BareInBody(n, deep);
    var bc, own := BareInCtes(w.ctes, w.recursive, deep), if w.recursive then names else {};
    assert BareInBody(n', deep) == BareInBody(RenameBody(n, x, y), deep);
    assert QualifiedInBody(n', deep) == QualifiedInBody(RenameBody(n, x, y), deep);
    SwapMinus(b, names, x, y);
    SwapMinus(bc, own, x, y);
    SwapUnion(b - names, bc - own, x, y);
  }

  lemma {:induction false} RenameSwapsInBody(n: Node, x: string, y: string, deep: bool)
    requires Fresh(n, y)
    ensures y !in BareInBody(n, deep)
    ensures BareInBody(RenameBody(n, x, y), deep) == Swap(BareInBody(n, deep), x, y)
    ensures QualifiedInBody(RenameBody(n, x, y), deep) == QualifiedInBody(n, deep)
    decreases SizeOfValues(n.fields), 2
  {
    hide Nested;
    hide Buried;
    var n' := RenameBody(n, x, y);
    var nested, buried := Nested(n.fields), Buried(n.fields);
    assert Nested(n'.fields) == RenameInNodes(nested, x, y) by {
      RenameNested(n.fields, x, y);
    }
    assert Buried(n'.fields) == RenameInNodes(buried, x, y) by {
      RenameBuried(n.fields, x, y);
    }
    RenameSwapsInNodes(nested, x, y, deep);
    RenameSwapsInNodes(buried, x, y, deep);
    var own := if n.kind.RangeVar? && n.kind.schemaname.None? then {n.kind.relname} else {};
    var b1, b2 := BareInNodes(nested, deep), if deep then BareInNodes(buried, deep) else {};
    assert BareInBody(n, deep) == own + b1 + b2;
    assert BareInBody(n', deep) == Swap(own, x, y) + Swap(b1, x, y) + Swap(b2, x, y);
    SwapUnion(own, b1, x, y);
    SwapUnion(own + b1, b2, x, y);
  }

  lemma {:induction false} RenameInCtesNames(ctes: seq<Cte>, x: string, y: string)
    ensures CteNames(RenameInCtes(ctes, x, y)) == CteNames(ctes)
  {
    if ctes != [] {
      var renamed := RenameInCtes(ctes, x, y);
      var rest := if ctes[0].ctename == x then ctes[1..] else RenameInCtes(ctes[1..], x, y);
      RenameInCtesNames(ctes[1..], x, y);
      CteNamesUnion([ctes[0]], ctes[1..]);
      CteNamesUnion([renamed[0]], rest);
      assert [ctes[0]] + ctes[1..] == ctes && [renamed[0]] + rest == renamed;
    }
  }

  lemma {:induction false} RenameSwapsInCtes(ctes: seq<Cte>, recursive: bool, x: string, y: string, deep: bool)
    requires FreshInCtes(ctes, y) && (recursive || y !in CteNames(ctes))
    ensures y !in BareInCtes(ctes, recursive, deep)
    ensures QualifiedInCtes(RenameInCtes(ctes, x, y), deep) == QualifiedInCtes(ctes, deep)
    ensures (recursive && x in CteNames(ctes))
            || BareInCtes(RenameInCtes(ctes, x, y), recursive, deep) == Swap(BareInCtes(ctes, recursive, deep), x, y)
    decreases SizeOfCtes(ctes), 1
  {
    if ctes != [] {
      var name, renamed := ctes[0].ctename, RenameInCtes(ctes, x, y);
      var rest := if name == x then ctes[1..] else RenameInCtes(ctes[1..], x, y);
      assert renamed[1..] == rest;
      assert name in CteNames(ctes);
      assert CteNames(ctes[1..]) <= CteNames(ctes);
      RenameSwaps(ctes[0].node, x, y, deep);
      RenameSwapsInCtes(ctes[1..], recursive, x, y, deep);
      var b, own := BareInCtes(ctes[1..], recursive, deep), if recursive then {} else {name};
      SwapMinus(b, own, x, y);
      SwapUnion(Bare(ctes[0].node, deep), b - own, x, y);
      assert x in CteNames(ctes[1..]) ==> x in CteNames(ctes);
      if !(recursive && x in CteNames(ctes)) {
        assert BareInCtes(rest, recursive, deep) - own == Swap(b - own, x, y);
      }
    }
  }

  lemma CteNamesUnion(a: seq<Cte>, b: seq<Cte>)
    ensures CteNames(a + b) == CteNames(a) + CteNames(b)
  {
  }

  lemma {:induction false} RenameSwapsInNodes(nodes: seq<Node>, x: string, y: string, deep: bool)
    requires FreshInNodes(nodes, y)
    ensures y !in BareInNodes(nodes, deep)
    ensures BareInNodes(RenameInNodes(nodes, x, y), deep) == Swap(BareInNodes(nodes, deep), x, y)
    ensures QualifiedInNodes(RenameInNodes(nodes, x, y), deep) == QualifiedInNodes(nodes, deep)
    decreases SizeOfNodes(nodes), 1
  {
    if nodes != [] {
      assert RenameInNodes(nodes, x, y)[1..] == RenameInNodes(nodes[1..], x, y);
      RenameSwaps(nodes[0], x, y, deep);
      RenameSwapsInNodes(nodes[1..], x, y, deep);
      SwapUnion(Bare(nodes[0], deep), BareInNodes(nodes[1..], deep), x, y);
    }
  }

  /** Renames the `i`-th common table expression of `w` to `y`, with the references to it among its
      siblings. */
  function RenameBinder(w: With, i: nat, y: string): With
    requires i < |w.ctes|
  {
    var x, bound := w.ctes[i].ctename, Cte(y, w.ctes[i].node);
    if w.recursive then
      var ctes := w.ctes[i := bound];
      With(true, if x in CteNames(ctes) then ctes else RenameInCtes(ctes, x, y))
    else With(false, w.ctes[..i] + [bound] + RenameInCtes(w.ctes[i + 1..], x, y))
  }

  /** Renames a common table expression of `n` to `y` consistently: the binder, its references among
      the siblings, and its references in the body unless another sibling of that name takes them. */
  function RenameCte(n: Node, i: nat, y: string): Node
    requires n.withClause.Some? && i < |n.withClause.value.ctes|
  {
    var w := n.withClause.value;
    var x := w.ctes[i].ctename;
    var w' := RenameBinder(w, i, y);
    if x in CteNames(w'.ctes) then n.(withClause := Some(w'))
    else Node(RenameKind(n.kind, x, y), Some(w'), RenameInValues(n.fields, x, y))
  }

  /** The effect of renaming one binder on its siblings: nothing, once the siblings' own names are
      taken away. */
  lemma {:induction false} RenameBinderKeepsCtes(ctes: seq<Cte>, i: nat, y: string, deep: bool)
    requires i < |ctes| && FreshInCtes(ctes, y) && y !in CteNames(ctes)
    ensures var w' := RenameBinder(With(false, ctes), i, y);
            BareInCtes(w'.ctes, false, deep) == BareInCtes(ctes, false, deep)
            && QualifiedInCtes(w'.ctes, deep) == QualifiedInCtes(ctes, deep)
  {
    var x := ctes[i].ctename;
    var renamed := RenameBinder(With(false, ctes), i, y).ctes;
    if i == 0 {
      assert renamed == [Cte(y, ctes[0].node)] + RenameInCtes(ctes[1..], x, y);
      assert renamed[1..] == RenameInCtes(ctes[1..], x, y);
      RenameSwapsInCtes(ctes[1..], false, x, y, deep);
    } else {
      assert ctes[1..][..i - 1] == ctes[..i][1..] && ctes[1..][i..] == ctes[i + 1..];
      assert renamed[1..] == RenameBinder(With(false, ctes[1..]), i - 1, y).ctes;
      RenameBinderKeepsCtes(ctes[1..], i - 1, y, deep);
    }
  }

  lemma {:induction false} RebindKeepsBare(ctes: seq<Cte>, i: nat, y: string, deep: bool)
    requires i < |ctes|
    ensures var rebound := ctes[i := Cte(y, ctes[i].node)];
            BareInCtes(rebound, true, deep) == BareInCtes(ctes, true, deep)
            && QualifiedInCtes(rebound, deep) == QualifiedInCtes(ctes, deep)
            && FreshInCtes(rebound, y) == FreshInCtes(ctes, y)
  {
    var rebound := ctes[i := Cte(y, ctes[i].node)];
    if i == 0 {
      assert rebound[1..] == ctes[1..];
    } else {
      assert rebound[1..] == ctes[1..][i - 1 := Cte(y, ctes[i].node)];
      RebindKeepsBare(ctes[1..], i - 1, y, deep);
    }
  }

  ghost predicate Renamed(names: set<string>, names': set<string>, x: string, y: string) {
    x in names && y !in names && y in names' && names' - {x, y} == names - {x, y}
  }

  lemma RenamedMinus(bare: set<string>, names: set<string>, names': set<string>, x: string, y: string)
    requires Renamed(names, names', x, y) && y !in bare
    ensures x in names' ==> bare - names' == bare - names
    ensures Swap(bare, x, y) - names' == bare - names
  {
    assert forall e | e !in {x, y} :: e in names' <==> e in names' - {x, y};
    assert forall e | e !in {x, y} :: e in names <==> e in names - {x, y};
  }

  lemma RebindNames(ctes: seq<Cte>, i: nat, y: string)
    requires i < |ctes| && y !in CteNames(ctes)
    ensures Renamed(CteNames(ctes), CteNames(ctes[i := Cte(y, ctes[i].node)]), ctes[i].ctename, y)
  {
    var x, rebound := ctes[i].ctename, ctes[i := Cte(y, ctes[i].node)];
    assert rebound[i].ctename == y;
    forall c | c in CteNames(ctes) && c != x ensures c in CteNames(rebound) {
      var k :| 0 <= k < |ctes| && ctes[k].ctename == c;
      assert rebound[k] == ctes[k];
    }
  }

  lemma RenameBinderNames(w: With, i: nat, y: string)
    requires i < |w.ctes| && y !in CteNames(w.ctes)
    ensures Renamed(CteNames(w.ctes), CteNames(RenameBinder(w, i, y).ctes), w.ctes[i].ctename, y)
  {
    var x, rebound := w.ctes[i].ctename, w.ctes[i := Cte(y, w.ctes[i].node)];
    RebindNames(w.ctes, i, y);
    if w.recursive {
      RenameInCtesNames(rebound, x, y);
    } else {
      var after := w.ctes[i + 1..];
      RenameInCtesNames(after, x, y);
      assert rebound == w.ctes[..i] + [Cte(y, w.ctes[i].node)] + after;
      CteNamesUnion(w.ctes[..i] + [Cte(y, w.ctes[i].node)], after);
      CteNamesUnion(w.ctes[..i] + [Cte(y, w.ctes[i].node)], RenameInCtes(after, x, y));
    }
  }

  lemma RenameBinderKeepsBare(w: With, i: nat, y: string, deep: bool)
    requires i < |w.ctes| && FreshInCtes(w.ctes, y) && y !in CteNames(w.ctes)
    ensures var own, own' := if w.recursive then CteNames(w.ctes) else {},
                             if w.recursive then CteNames(RenameBinder(w, i, y).ctes) else {};
            BareInCtes(RenameBinder(w, i, y).ctes, w.recursive, deep) - own'
            == BareInCtes(w.ctes, w.recursive, deep) - own
    ensures QualifiedInCtes(RenameBinder(w, i, y).ctes, deep) == QualifiedInCtes(w.ctes, deep)
  {
    var x, w' := w.ctes[i].ctename, RenameBinder(w, i, y);
    if w.recursive {
      var rebound := w.ctes[i := Cte(y, w.ctes[i].node)];
      RenameBinderNames(w, i, y);
      RebindKeepsBare(w.ctes, i, y, deep);
      RenameSwapsInCtes(rebound, true, x, y, deep);
      RenamedMinus(BareInCtes(w.ctes, true, deep), CteNames(w.ctes), CteNames(w'.ctes), x, y);
    } else {
      assert w' == RenameBinder(With(false, w.ctes), i, y);
      RenameBinderKeepsCtes(w.ctes, i, y, deep);
    }
  }

  /** Renaming one common table expression to a fresh name, consistently, does not change the tables
      of the query. */
  lemma RenamingIsInvisible(n: Node, i: nat, y: string, scope: set<string>, deep: bool)
    requires n.withClause.Some? && i < |n.withClause.value.ctes|
    requires Fresh(n, y)
    ensures Free(RenameCte(n, i, y), scope, deep) == Free(n, scope, deep)
  {
    ScopeSubtracts(n, scope, deep);
    ScopeSubtracts(RenameCte(n, i, y), scope, deep);
    var w, w', n' := n.withClause.value, RenameBinder(n.withClause.value, i, y), RenameCte(n, i, y);
    var x := w.ctes[i].ctename;
    RenameBinderNames(w, i, y);
    RenameBinderKeepsBare(w, i, y, deep);
    RenameSwapsInBody(n, x, y, deep);
    var bare := BareInBody(n, deep);
    RenamedMinus(bare, CteNames(w.ctes), CteNames(w'.ctes), x, y);
    if x in CteNames(w'.ctes) {
      assert BareInBody(n', deep) == bare && QualifiedInBody(n', deep) == QualifiedInBody(n, deep);
    } else {
      assert BareInBody(n', deep) == BareInBody(RenameBody(n, x, y), deep);
      assert QualifiedInBody(n', deep) == QualifiedInBody(RenameBody(n, x, y), deep);
    }
    assert BareInBody(n', deep) - CteNames(w'.ctes) == bare - CteNames(w.ctes);
    assert Bare(n', deep) == Bare(n, deep);
  }
}
