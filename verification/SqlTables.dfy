/** Tables a PostgreSQL query reads, found by a breadth-first walk over its parse tree that carries
    the names of the common table expressions in scope. */
module SqlTables {
  import opened Text
  import opened Wrappers

  /** What the walk looks at in a dictionary besides its nested dictionaries: whether it is a
      "RangeVar" and, if so, its `schemaname` and `relname`. */
  datatype Kind = RangeVar(schemaname: Option<string>, relname: string) | OtherKind

  /** A dictionary of the parse tree. `fields` are its values in order, without "withClause". */
  datatype Node = Node(kind: Kind, withClause: Option<With>, fields: seq<Value>)

  datatype With = With(recursive: bool, ctes: seq<Cte>)

  /** A common table expression: its `ctename`, and the dictionary itself, walked like any other. */
  datatype Cte = Cte(ctename: string, node: Node)

  datatype Value = Scalar | Dict(node: Node) | Tuple(items: seq<Value>)

  type Table = (string, string)

  // ---------------------------------------------------------------------------------------------
  // Edges of the tree
  // ---------------------------------------------------------------------------------------------

  function SizeOfNode(n: Node): nat
    decreases n, 1
  {
    1 + (match n.withClause case None => 0 case Some(w) => SizeOfCtes(w.ctes)) + SizeOfValues(n.fields)
  }

  function SizeOfCtes(ctes: seq<Cte>): nat
    decreases ctes, 0
  {
    if ctes == [] then 0 else SizeOfNode(ctes[0].node) + SizeOfCtes(ctes[1..])
  }

  function SizeOfValues(values: seq<Value>): nat
    decreases values, 0
  {
    if values == [] then 0 else SizeOfValue(values[0]) + SizeOfValues(values[1..])
  }

  function SizeOfValue(value: Value): nat
    decreases value, 2
  {
    match value
    case Scalar => 0
    case Dict(n) => SizeOfNode(n)
    case Tuple(items) => SizeOfValues(items)
  }

  function SizeOfNodes(nodes: seq<Node>): nat {
    if nodes == [] then 0 else SizeOfNode(nodes[0]) + SizeOfNodes(nodes[1..])
  }

  lemma {:induction false} SizeOfNodesAppend(a: seq<Node>, b: seq<Node>)
    ensures SizeOfNodes(a + b) == SizeOfNodes(a) + SizeOfNodes(b)
  {
    if a == [] {
      assert a + b == b;
    } else {
      assert (a + b)[1..] == a[1..] + b;
      SizeOfNodesAppend(a[1..], b);
    }
  }

  function DictItems(items: seq<Value>): (nodes: seq<Node>)
    ensures SizeOfNodes(nodes) <= SizeOfValues(items)
  {
    if items == [] then []
    else if items[0].Dict? then [items[0].node] + DictItems(items[1..])
    else DictItems(items[1..])
  }

  /** The dictionaries the walk goes on to: those that are values of the node, or items of a tuple
      that is one. A tuple inside a tuple is not entered. */
  function Nested(fields: seq<Value>): (nodes: seq<Node>)
    ensures SizeOfNodes(nodes) <= SizeOfValues(fields)
  {
    if fields == [] then []
    else
      var first := match fields[0]
                   case Scalar => []
                   case Dict(n) => [n]
                   case Tuple(items) => DictItems(items);
      SizeOfNodesAppend(first, Nested(fields[1..]));
      first + Nested(fields[1..])
  }

  /** Every dictionary inside these values, at whatever depth of tuples. */
  function AllDicts(values: seq<Value>): (nodes: seq<Node>)
    ensures SizeOfNodes(nodes) <= SizeOfValues(values)
  {
    if values == [] then []
    else
      var first := AllDictsOf(values[0]);
      SizeOfNodesAppend(first, AllDicts(values[1..]));
      first + AllDicts(values[1..])
  }

  function AllDictsOf(value: Value): (nodes: seq<Node>)
    ensures SizeOfNodes(nodes) <= SizeOfValue(value)
  {
    match value
    case Scalar => []
    case Dict(n) => [n]
    case Tuple(items) => AllDicts(items)
  }

  function BuriedItems(items: seq<Value>): (nodes: seq<Node>)
    ensures SizeOfNodes(nodes) <= SizeOfValues(items)
  {
    if items == [] then []
    else
      var first := if items[0].Tuple? then AllDicts(items[0].items) else [];
      SizeOfNodesAppend(first, BuriedItems(items[1..]));
      first + BuriedItems(items[1..])
  }

  /** The dictionaries the walk never sees: those inside a tuple that is itself inside a tuple. */
  function Buried(fields: seq<Value>): (nodes: seq<Node>)
    ensures SizeOfNodes(nodes) <= SizeOfValues(fields)
  {
    if fields == [] then []
    else
      var first := if fields[0].Tuple? then BuriedItems(fields[0].items) else [];
      SizeOfNodesAppend(first, Buried(fields[1..]));
      first + Buried(fields[1..])
  }

  // ---------------------------------------------------------------------------------------------
  // Free tables
  // ---------------------------------------------------------------------------------------------

  function CteNames(ctes: seq<Cte>): set<string> {
    set c | c in ctes :: c.ctename
  }

  /** The names visible to everything in `n` but its own common table expressions. */
  function BodyScope(n: Node, scope: set<string>): set<string> {
    match n.withClause
    case None => scope
    case Some(w) => scope + CteNames(w.ctes)
  }

  /** `schemaname or "public"`: a missing schema and an empty one both mean public. */
  function SchemaOf(schemaname: Option<string>): string {
    if schemaname.None? || schemaname.value == "" then "public" else schemaname.value
  }

  function Own(kind: Kind, scope: set<string>): set<Table> {
    match kind
    case OtherKind => {}
    case RangeVar(schemaname, relname) =>
      if schemaname.Some? || relname !in scope then {(SchemaOf(schemaname), relname)} else {}
  }

  /** The tables `n` reads when the names in `scope` are already bound: along the edges the walk
      follows or, if `deep`, along all of them. */
  function Free(n: Node, scope: set<string>, deep: bool): set<Table>
    decreases SizeOfNode(n), 0
  {
    FreeOfBody(n, BodyScope(n, scope), deep)
    + (match n.withClause
       case None => {}
       case Some(w) =>
         FreeOfCtes(w.ctes, if w.recursive then scope + CteNames(w.ctes) else scope, w.recursive, deep))
  }

  function FreeOfBody(n: Node, scope: set<string>, deep: bool): set<Table>
    decreases SizeOfValues(n.fields), 2
  {
    Own(n.kind, scope)
    + FreeOfNodes(Nested(n.fields), scope, deep)
    + (if deep then FreeOfNodes(Buried(n.fields), scope, deep) else {})
  }

  /** Siblings of a recursive WITH all see each other (`scope` then holds every name already);
      siblings of a plain WITH see only the ones before. */
  function FreeOfCtes(ctes: seq<Cte>, scope: set<string>, recursive: bool, deep: bool): set<Table>
    decreases SizeOfCtes(ctes), 1
  {
    if ctes == [] then {}
    else Free(ctes[0].node, scope, deep)
         + FreeOfCtes(ctes[1..], if recursive then scope else scope + {ctes[0].ctename}, recursive, deep)
  }

  function FreeOfNodes(nodes: seq<Node>, scope: set<string>, deep: bool): set<Table>
    decreases SizeOfNodes(nodes), 1
  {
    if nodes == [] then {} else Free(nodes[0], scope, deep) + FreeOfNodes(nodes[1..], scope, deep)
  }

  lemma {:induction false} FreeOfNodesAppend(a: seq<Node>, b: seq<Node>, scope: set<string>, deep: bool)
    ensures FreeOfNodes(a + b, scope, deep) == FreeOfNodes(a, scope, deep) + FreeOfNodes(b, scope, deep)
  {
    if a == [] {
      assert a + b == b;
    } else {
      assert (a + b)[1..] == a[1..] + b;
      FreeOfNodesAppend(a[1..], b, scope, deep);
    }
  }

  // ---------------------------------------------------------------------------------------------
  // The worklist
  // ---------------------------------------------------------------------------------------------

  datatype Work = Work(node: Node, ctenames: seq<string>)

  function Names(ctenames: seq<string>): set<string> {
    set c | c in ctenames
  }

  function FreeOfQueue(queue: seq<Work>): set<Table> {
    if queue == [] then {}
    else Free(queue[0].node, Names(queue[0].ctenames), false) + FreeOfQueue(queue[1..])
  }

  function SizeOfQueue(queue: seq<Work>): nat {
    if queue == [] then 0 else SizeOfNode(queue[0].node) + SizeOfQueue(queue[1..])
  }

  lemma {:induction false} QueueAppend(queue: seq<Work>, work: Work)
    ensures FreeOfQueue(queue + [work]) == FreeOfQueue(queue) + Free(work.node, Names(work.ctenames), false)
    ensures SizeOfQueue(queue + [work]) == SizeOfQueue(queue) + SizeOfNode(work.node)
  {
    if queue == [] {
      assert queue + [work] == [work];
      assert [work][1..] == [];
    } else {
      assert (queue + [work])[1..] == queue[1..] + [work];
      QueueAppend(queue[1..], work);
    }
  }

  lemma NamesAppend(a: seq<string>, b: seq<string>)
    ensures Names(a + b) == Names(a) + Names(b)
  {
  }

  lemma CteNamesAppend(ctes: seq<Cte>, i: nat)
    requires i < |ctes|
    ensures CteNames(ctes[..i + 1]) == CteNames(ctes[..i]) + {ctes[i].ctename}
  {
    assert ctes[..i + 1] == ctes[..i] + [ctes[i]];
  }

  /** WITH RECURSIVE: every name first, then every expression under all of them. */
  method EnqueueRecursiveCtes(queue: seq<Work>, ctes: seq<Cte>, ctenames: seq<string>)
    returns (q: seq<Work>, names: seq<string>)
    ensures Names(names) == Names(ctenames) + CteNames(ctes)
    ensures FreeOfQueue(q) == FreeOfQueue(queue) + FreeOfCtes(ctes, Names(names), true, false)
    ensures SizeOfQueue(q) == SizeOfQueue(queue) + SizeOfCtes(ctes)
  {
    var added := seq(|ctes|, i requires 0 <= i < |ctes| => ctes[i].ctename);
    assert Names(added) == CteNames(ctes) by {
      forall c | c in CteNames(ctes) ensures c in added {
        var i :| 0 <= i < |ctes| && ctes[i].ctename == c;
        assert added[i] == c;
      }
    }
    NamesAppend(ctenames, added);
    q, names := queue, ctenames + added;
    for i := 0 to |ctes|
      invariant FreeOfQueue(q) + FreeOfCtes(ctes[i..], Names(names), true, false)
                == FreeOfQueue(queue) + FreeOfCtes(ctes, Names(names), true, false)
      invariant SizeOfQueue(q) + SizeOfCtes(ctes[i..]) == SizeOfQueue(queue) + SizeOfCtes(ctes)
    {
      assert ctes[i..][1..] == ctes[i + 1..];
      QueueAppend(q, Work(ctes[i].node, names));
      q := q + [Work(ctes[i].node, names)];
    }
    assert ctes[|ctes|..] == [];
  }

  lemma PlainStep(q: seq<Work>, ctes: seq<Cte>, i: nat, names: seq<string>)
    requires i < |ctes|
    ensures FreeOfQueue(q + [Work(ctes[i].node, names)])
            + FreeOfCtes(ctes[i + 1..], Names(names + [ctes[i].ctename]), false, false)
            == FreeOfQueue(q) + FreeOfCtes(ctes[i..], Names(names), false, false)
  {
    assert ctes[i..][1..] == ctes[i + 1..];
    QueueAppend(q, Work(ctes[i].node, names));
    NamesAppend(names, [ctes[i].ctename]);
    assert Names([ctes[i].ctename]) == {ctes[i].ctename};
  }

  /** Plain WITH: each expression under the names before it. */
  method EnqueuePlainCtes(queue: seq<Work>, ctes: seq<Cte>, ctenames: seq<string>)
    returns (q: seq<Work>, names: seq<string>)
    ensures Names(names) == Names(ctenames) + CteNames(ctes)
    ensures FreeOfQueue(q) == FreeOfQueue(queue) + FreeOfCtes(ctes, Names(ctenames), false, false)
    ensures SizeOfQueue(q) == SizeOfQueue(queue) + SizeOfCtes(ctes)
  {
    hide Free;
    hide SizeOfNode;
    q, names := queue, ctenames;
    for i := 0 to |ctes|
      invariant Names(names) == Names(ctenames) + CteNames(ctes[..i])
      invariant FreeOfQueue(q) + FreeOfCtes(ctes[i..], Names(names), false, false)
                == FreeOfQueue(queue) + FreeOfCtes(ctes, Names(ctenames), false, false)
      invariant SizeOfQueue(q) + SizeOfCtes(ctes[i..]) == SizeOfQueue(queue) + SizeOfCtes(ctes)
    {
      assert ctes[i..][1..] == ctes[i + 1..];
      PlainStep(q, ctes, i, names);
      QueueAppend(q, Work(ctes[i].node, names));
      q := q + [Work(ctes[i].node, names)];
      NamesAppend(names, [ctes[i].ctename]);
      CteNamesAppend(ctes, i);
      names := names + [ctes[i].ctename];
    }
    assert ctes[|ctes|..] == [] && ctes[..|ctes|] == ctes;
  }

  lemma NodeStep(q: seq<Work>, n: Node, rest: seq<Node>, ctenames: seq<string>)
    ensures FreeOfQueue(q + [Work(n, ctenames)]) + FreeOfNodes(rest, Names(ctenames), false)
            == FreeOfQueue(q) + FreeOfNodes([n] + rest, Names(ctenames), false)
  {
    QueueAppend(q, Work(n, ctenames));
    assert ([n] + rest)[1..] == rest;
  }

  /** Queues the dictionaries among the items of one tuple. */
  method EnqueueItems(queue: seq<Work>, items: seq<Value>, ctenames: seq<string>) returns (q: seq<Work>)
    ensures FreeOfQueue(q) == FreeOfQueue(queue) + FreeOfNodes(DictItems(items), Names(ctenames), false)
    ensures SizeOfQueue(q) <= SizeOfQueue(queue) + SizeOfValues(items)
  {
    q := queue;
    for j := 0 to |items|
      invariant FreeOfQueue(q) + FreeOfNodes(DictItems(items[j..]), Names(ctenames), false)
                == FreeOfQueue(queue) + FreeOfNodes(DictItems(items), Names(ctenames), false)
      invariant SizeOfQueue(q) + SizeOfValues(items[j..]) <= SizeOfQueue(queue) + SizeOfValues(items)
    {
      assert items[j..][1..] == items[j + 1..];
      if items[j].Dict? {
        NodeStep(q, items[j].node, DictItems(items[j + 1..]), ctenames);
        QueueAppend(q, Work(items[j].node, ctenames));
        q := q + [Work(items[j].node, ctenames)];
      }
    }
    assert items[|items|..] == [];
  }

  /** Queues the dictionaries one level below a node. */
  method EnqueueFields(queue: seq<Work>, fields: seq<Value>, ctenames: seq<string>) returns (q: seq<Work>)
    ensures FreeOfQueue(q) == FreeOfQueue(queue) + FreeOfNodes(Nested(fields), Names(ctenames), false)
    ensures SizeOfQueue(q) <= SizeOfQueue(queue) + SizeOfValues(fields)
  {
    q := queue;
    for i := 0 to |fields|
      invariant FreeOfQueue(q) + FreeOfNodes(Nested(fields[i..]), Names(ctenames), false)
                == FreeOfQueue(queue) + FreeOfNodes(Nested(fields), Names(ctenames), false)
      invariant SizeOfQueue(q) + SizeOfValues(fields[i..]) <= SizeOfQueue(queue) + SizeOfValues(fields)
    {
      assert fields[i..][1..] == fields[i + 1..];
      match fields[i] {
        case Scalar =>
          assert [] + Nested(fields[i + 1..]) == Nested(fields[i + 1..]);
        case Dict(n) =>
          NodeStep(q, n, Nested(fields[i + 1..]), ctenames);
          QueueAppend(q, Work(n, ctenames));
          q := q + [Work(n, ctenames)];
        case Tuple(items) =>
          FreeOfNodesAppend(DictItems(items), Nested(fields[i + 1..]), Names(ctenames), false);
          q := EnqueueItems(q, items, ctenames);
      }
    }
    assert fields[|fields|..] == [];
  }

  lemma Regroup(found: set<Table>, own: set<Table>, rest: set<Table>, ctes: set<Table>, body: set<Table>)
    ensures (found + own) + ((rest + ctes) + body) == found + ((own + body + ctes) + rest)
  {
  }

  /** The walk itself, from the first statement. */
  method CollectTables(root: Node) returns (tables: set<Table>)
    ensures tables == Free(root, {}, false)
  {
    tables := {};
    var queue := [Work(root, [])];
    assert FreeOfQueue(queue) == Free(root, {}, false) by {
      assert Names([]) == {} && queue[1..] == [];
    }
    while queue != []
      invariant tables + FreeOfQueue(queue) == Free(root, {}, false)
      decreases SizeOfQueue(queue)
    {
      var Work(node, ctenames) := queue[0];
      ghost var scope, found, rest := Names(ctenames), tables, FreeOfQueue(queue[1..]);
      ghost var ctes := {};
      queue := queue[1..];
      if node.withClause.Some? {
        if node.withClause.value.recursive {
          queue, ctenames := EnqueueRecursiveCtes(queue, node.withClause.value.ctes, ctenames);
          ctes := FreeOfCtes(node.withClause.value.ctes, Names(ctenames), true, false);
        } else {
          ctes := FreeOfCtes(node.withClause.value.ctes, scope, false, false);
          queue, ctenames := EnqueuePlainCtes(queue, node.withClause.value.ctes, ctenames);
        }
      }
      assert Names(ctenames) == BodyScope(node, scope);
      ghost var own := Own(node.kind, Names(ctenames));
      if node.kind.RangeVar? && (node.kind.schemaname.Some? || node.kind.relname !in ctenames) {
        tables := tables + {(SchemaOf(node.kind.schemaname), node.kind.relname)};
      }
      assert tables == found + own;
      ghost var body := FreeOfNodes(Nested(node.fields), Names(ctenames), false);
      queue := EnqueueFields(queue, node.fields, ctenames);
      assert FreeOfQueue(queue) == (rest + ctes) + body;
      assert Free(node, scope, false) == own + body + ctes;
      Regroup(found, own, rest, ctes, body);
    }
  }

  // ---------------------------------------------------------------------------------------------
  // Sorting
  // ---------------------------------------------------------------------------------------------

  /** Python's order on pairs of strings. */
  predicate TableLess(a: Table, b: Table) {
    Less(a.0, b.0) || (a.0 == b.0 && Less(a.1, b.1))
  }

  ghost predicate StrictlySorted(s: seq<Table>) {
    forall i, j | 0 <= i < j < |s| :: TableLess(s[i], s[j])
  }

  /** By schema, and within a schema by name, without repeats. */
  ghost predicate InOrder(s: seq<Table>) {
    forall i, j | 0 <= i < j < |s| ::
      Precedes(s[i].0, s[j].0) || (s[i].0 == s[j].0 && Precedes(s[i].1, s[j].1))
  }

  lemma StrictlySortedInOrder(s: seq<Table>)
    requires StrictlySorted(s)
    ensures InOrder(s)
  {
    hide Less;
    hide Precedes;
    forall i, j | 0 <= i < j < |s| ensures Precedes(s[i].0, s[j].0) || (s[i].0 == s[j].0 && Precedes(s[i].1, s[j].1)) {
      assert TableLess(s[i], s[j]);
      LessPrecedes(s[i].0, s[j].0);
      LessPrecedes(s[i].1, s[j].1);
    }
  }

  lemma TableLessTransitive(a: Table, b: Table, c: Table)
    requires TableLess(a, b) && TableLess(b, c)
    ensures TableLess(a, c)
  {
    if Less(a.0, b.0) && Less(b.0, c.0) {
      LessTransitive(a.0, b.0, c.0);
    }
    if Less(a.1, b.1) && Less(b.1, c.1) {
      LessTransitive(a.1, b.1, c.1);
    }
  }

  lemma TableLessTotal(a: Table, b: Table)
    ensures a == b || TableLess(a, b) || TableLess(b, a)
    ensures !(TableLess(a, b) && (a == b || TableLess(b, a)))
  {
    LessTotal(a.0, b.0);
    LessTotal(a.1, b.1);
    if TableLess(a, b) && TableLess(b, a) {
      TableLessTransitive(a, b, a);
    }
    LessIrreflexive(a.0);
    LessIrreflexive(a.1);
  }

  /** `sorted(list(tables))`. */
  method Sorted(tables: set<Table>) returns (list: seq<Table>)
    ensures InOrder(list)
    ensures forall t :: t in list <==> t in tables
  {
    hide Precedes;
    list := [];
    var rest := tables;
    while rest != {}
      invariant rest <= tables
      invariant forall t :: t in list <==> t in tables - rest
      invariant StrictlySorted(list)
    {
      var t :| t in rest;
      assert t !in list;
      rest := rest - {t};
      var k := |list|;
      while k > 0 && TableLess(t, list[k - 1])
        invariant 0 <= k <= |list|
        invariant forall j | k <= j < |list| :: TableLess(t, list[j])
      {
        k := k - 1;
      }
      if k > 0 {
        TableLessTotal(t, list[k - 1]);
        forall j | 0 <= j < k ensures TableLess(list[j], t) {
          if j < k - 1 {
            TableLessTransitive(list[j], list[k - 1], t);
          }
        }
      }
      ghost var was := list;
      list := list[..k] + [t] + list[k..];
      assert forall u :: u in list <==> u in was || u == t by {
        assert was == was[..k] + was[k..];
      }
    }
    StrictlySortedInOrder(list);
  }

  /** pglast's verdict on the query text, taken as given: an error, or the list of statements. */
  datatype Parse = ParseError | Statements(statements: seq<Node>)

  /** The tables of the first statement, in order and without repeats; none on a parse error. */
  method ExtractQueriedTables(parse: Parse) returns (tables: seq<Table>)
    ensures InOrder(tables)
    ensures parse.ParseError? || parse.statements == [] ==> tables == []
    ensures parse.Statements? && parse.statements != []
            ==> forall t :: t in tables <==> t in Free(parse.statements[0], {}, false)
  {
    if parse.ParseError? {
      return [];
    }
    if |parse.statements| == 0 {
      return [];
    }
    var found := CollectTables(parse.statements[0]);
    tables := Sorted(found);
  }
}
