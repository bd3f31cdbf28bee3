/** The parser undoes the printing of a tree as paths. */
module EnvironmentTreeRoundTrip {
  import opened EnvironmentTree
  import opened EnvironmentTreeLaws
  import opened PythonInt

  // ---------------------------------------------------------------------------------------------
  // The printer
  // ---------------------------------------------------------------------------------------------

  /** `k` is a component below the tree. Those of a list are the numerals of its positions. */
  predicate HasChild(t: Tree, k: string) {
    match t
    case Leaf(_) => false
    case Dict(entries) => k in entries
    case List(items) => IsInt(k) && 0 <= IntOf(k) < |items| && k == Decimal(IntOf(k))
  }

  function Child(t: Tree, k: string): (child: Tree)
    requires HasChild(t, k)
    ensures child < t
  {
    if t.Dict? then t.entries[k] else t.items[IntOf(k)]
  }

  /** A component that can be told from its neighbours: not empty, without a separator, and not ending
      in an underscore. */
  predicate Component(k: string) {
    k != "" && Sep(k) == |k| && k[|k| - 1] != '_'
  }

  /** A tree of non-empty dictionaries and lists. */
  ghost predicate Good(t: Tree) {
    && (exists k :: HasChild(t, k))
    && forall k | HasChild(t, k) :: Component(k) && (Child(t, k).Leaf? || Good(Child(t, k)))
  }

  /** `key` is a path to `v`: the components on the way, with separators between them. */
  ghost predicate Prints(t: Tree, key: string, v: string)
    decreases t, 1
  {
    exists k | HasChild(t, k) :: PrintsUnder(Child(t, k), k, key, v)
  }

  ghost predicate PrintsUnder(child: Tree, k: string, key: string, v: string)
    decreases child, 2
  {
    if child.Leaf? then key == k && v == child.value
    else exists rest :: key == k + "__" + rest && Prints(child, rest, v)
  }

  /** The pairs are the paths of the tree with their values, in any order. */
  ghost predicate Printed(ps: Pairs<string>, t: Tree) {
    Distinct(ps) && forall key, v :: (key, v) in ps <==> Prints(t, key, v)
  }

  // ---------------------------------------------------------------------------------------------
  // Printed paths
  // ---------------------------------------------------------------------------------------------

  /** A component is what comes before the first separator, whatever follows. */
  lemma {:induction false} SepJoined(k: string, rest: string)
    requires Sep(k) == |k| && (k != "" ==> k[|k| - 1] != '_')
    ensures Sep(k + "__" + rest) == |k|
  {
    var key := k + "__" + rest;
    if k == "" {
      assert key[0] == '_' && key[1] == '_';
    } else {
      assert key[1..] == k[1..] + "__" + rest;
      if |k| == 1 {
        assert key[0] == k[0] != '_';
      } else {
        assert key[0] == k[0] && key[1] == k[1];
      }
      SepJoined(k[1..], rest);
    }
  }

  lemma Joined(k: string, rest: string)
    requires Component(k)
    ensures FirstComponent(k + "__" + rest) == k && LaterComponents(k + "__" + rest) == rest
  {
    var key := k + "__" + rest;
    SepJoined(k, rest);
    Components(key);
    assert key[..|k|] == k && key[|k| + 2..] == rest;
  }

  lemma Alone(k: string)
    requires Component(k)
    ensures LaterComponents(k) == ""
  {
    Components(k);
  }

  /** What a path says of the first component on it. */
  ghost predicate StartsAt(t: Tree, key: string, v: string) {
    if LaterComponents(key) == "" then HasChild(t, key) && Child(t, key) == Leaf(v)
    else
      var k := FirstComponent(key);
      HasChild(t, k) && !Child(t, k).Leaf? && Prints(Child(t, k), LaterComponents(key), v)
  }

  lemma {:induction false} NoEmptyPath(t: Tree, key: string, v: string)
    requires Good(t) && Prints(t, key, v)
    ensures key != ""
  {
    var k :| HasChild(t, k) && PrintsUnder(Child(t, k), k, key, v);
    assert Component(k);
  }

  /** Following a path goes through the component it starts with, and no other. */
  lemma PathStarts(t: Tree, key: string, v: string)
    requires Good(t)
    ensures Prints(t, key, v) <==> StartsAt(t, key, v)
  {
    if Prints(t, key, v) {
      var k :| HasChild(t, k) && PrintsUnder(Child(t, k), k, key, v);
      assert Component(k);
      if Child(t, k).Leaf? {
        Alone(k);
      } else {
        var rest :| key == k + "__" + rest && Prints(Child(t, k), rest, v);
        Joined(k, rest);
        NoEmptyPath(Child(t, k), rest, v);
      }
    }
    if StartsAt(t, key, v) {
      if LaterComponents(key) == "" {
        assert PrintsUnder(Child(t, key), key, key, v);
      } else {
        Recomposed(key);
        assert PrintsUnder(Child(t, FirstComponent(key)), FirstComponent(key), key, v);
      }
    }
  }

  /** A tree has a path. */
  lemma {:induction false} SomePath(t: Tree) returns (key: string, v: string)
    requires Good(t)
    ensures Prints(t, key, v)
    decreases t
  {
    var k :| HasChild(t, k);
    var child := Child(t, k);
    if child.Leaf? {
      key, v := k, child.value;
    } else {
      var rest;
      rest, v := SomePath(child);
      key := k + "__" + rest;
    }
    assert PrintsUnder(child, k, key, v);
  }

  /** A path goes through a component if and only if its rest is a path below. */
  lemma PathThrough(t: Tree, k: string, rest: string, v: string)
    requires Good(t) && HasChild(t, k) && !Child(t, k).Leaf?
    ensures Under(k + "__" + rest, k) && Prints(t, k + "__" + rest, v) <==> Prints(Child(t, k), rest, v)
    ensures LaterComponents(k + "__" + rest) == rest
  {
    hide Prints;
    assert Component(k);
    Joined(k, rest);
    PathStarts(t, k + "__" + rest, v);
    if Prints(Child(t, k), rest, v) {
      NoEmptyPath(Child(t, k), rest, v);
    }
  }

  /** The paths through a component make up its group. */
  lemma GroupPrinted(ps: Pairs<string>, t: Tree, k: string)
    requires Good(t) && Printed(ps, t) && HasChild(t, k) && !Child(t, k).Leaf?
    ensures Printed(Group(ps, k), Child(t, k)) && Group(ps, k) != []
  {
    hide Prints;
    hide Group;
    hide Distinct;
    hide Under;
    var child, g := Child(t, k), Group(ps, k);
    GroupHas(ps, k);
    forall rest, v ensures (rest, v) in g <==> Prints(child, rest, v) {
      PathThrough(t, k, rest, v);
    }
    var rest, v := SomePath(child);
    assert (rest, v) in g;
  }

  lemma NoGroup(ps: Pairs<string>, t: Tree, k: string)
    requires Good(t) && Printed(ps, t) && !(HasChild(t, k) && !Child(t, k).Leaf?)
    ensures Group(ps, k) == []
  {
    GroupHas(ps, k);
    if Group(ps, k) != [] {
      var p := Group(ps, k)[0];
      var key := k + "__" + p.0;
      assert (p.0, p.1) in Group(ps, k);
      PathStarts(t, key, p.1);
    }
  }

  // ---------------------------------------------------------------------------------------------
  // The round trip
  // ---------------------------------------------------------------------------------------------

  /** Nowhere in the tree are all keys of a dictionary integers. */
  ghost predicate IntFree(t: Tree) {
    && (t.Dict? ==> exists k | k in t.entries :: !IsInt(k))
    && forall k | HasChild(t, k) && !Child(t, k).Leaf? :: IntFree(Child(t, k))
  }

  /** The entries of a printed level, with what has become of the trees below. */
  lemma EntriesPrinted(ps: Pairs<string>, t: Tree, k: string)
    requires Good(t) && Printed(ps, t)
    ensures var m := Contents(Entries(ps));
            && (k in m <==> HasChild(t, k))
            && (k in m ==> m[k] == if Child(t, k).Leaf? then Child(t, k) else Normalise(Group(ps, k)))
  {
    hide Entries;
    hide Group;
    hide Prints;
    var m := Contents(Entries(ps));
    EntriesAre(ps);
    assert EntryIs(ps, m, k);
    if HasChild(t, k) && !Child(t, k).Leaf? {
      GroupPrinted(ps, t, k);
    } else {
      NoGroup(ps, t, k);
      if k in m {
        PathStarts(t, k, m[k].value);
      } else if HasChild(t, k) {
        assert Component(k);
        Alone(k);
        PathStarts(t, k, Child(t, k).value);
      }
    }
  }

  lemma AllIntKeys<V>(es: Pairs<V>)
    requires Distinct(es)
    ensures AllInts(es) <==> forall k | k in Contents(es) :: IsInt(k)
  {
    forall i | 0 <= i < |es| ensures es[i].0 in Contents(es) {
      assert (es[i].0, es[i].1) in es;
      ContentsHas(es, es[i].0);
    }
    forall k | k in Contents(es) ensures exists i | 0 <= i < |es| :: es[i].0 == k {
      ContentsHas(es, k);
    }
  }

  ghost predicate HasInt<V>(ps: Pairs<V>, n: int)
    requires AllInts(ps)
  {
    exists j | 0 <= j < |ps| :: IntOf(ps[j].0) == n
  }

  /** Ascending integers that are those from 0 to n, exactly. */
  lemma {:induction false} Ranked<V>(ps: Pairs<V>, n: nat)
    requires AllInts(ps) && Ascending(ps)
    requires forall j | 0 <= j < |ps| :: 0 <= IntOf(ps[j].0) < n
    requires forall i | 0 <= i < n :: HasInt(ps, i)
    ensures |ps| == n && forall i | 0 <= i < n :: IntOf(ps[i].0) == i
    decreases n
  {
    hide IsInt;
    hide IntOf;
    assert |ps| > 0 ==> IntOf(ps[0].0) < n;
    if n > 0 {
      var last := |ps| - 1;
      assert HasInt(ps, n - 1);
      var j :| 0 <= j < |ps| && IntOf(ps[j].0) == n - 1;
      assert j == last;
      var front := ps[..last];
      forall i | 0 <= i < n - 1 ensures HasInt(front, i) {
        assert HasInt(ps, i);
        var j :| 0 <= j < |ps| && IntOf(ps[j].0) == i;
        assert front[j] == ps[j];
      }
      Ranked(front, n - 1);
    }
  }

  /** The entries of a printed list, sorted, are its positions in order. */
  lemma ListSorted(ps: Pairs<string>, t: Tree)
    requires t.List? && Good(t) && Printed(ps, t)
    ensures Distinct(Entries(ps)) && AllInts(Entries(ps))
    ensures var m, sorted := Contents(Entries(ps)), SortByInt(Entries(ps));
            && |sorted| == |t.items|
            && forall i | 0 <= i < |sorted| :: Decimal(i) in m && sorted[i] == (Decimal(i), m[Decimal(i)])
  {
    hide Entries;
    hide IsInt;
    hide IntOf;
    hide Decimal;
    var es := Entries(ps);
    var m := Contents(es);
    EntriesAre(ps);
    forall k ensures k in m <==> HasChild(t, k) {
      EntriesPrinted(ps, t, k);
    }
    AllIntKeys(es);
    ListUntied(es, t);
    SortKeeps(es);
    SortAscends(es);
    var sorted := SortByInt(es);
    forall j | 0 <= j < |sorted| ensures HasChild(t, sorted[j].0) && sorted[j].0 in m && m[sorted[j].0] == sorted[j].1 {
      assert sorted[j] in es;
      assert (sorted[j].0, sorted[j].1) in es;
      ContentsHas(es, sorted[j].0);
    }
    forall i | 0 <= i < |t.items| ensures HasInt(sorted, i) {
      DecimalIsInt(i);
      ContentsHas(es, Decimal(i));
      assert (Decimal(i), m[Decimal(i)]) in sorted;
    }
    InPosition(sorted, m, t);
  }

  lemma InPosition(sorted: Pairs<Tree>, m: map<string, Tree>, t: Tree)
    requires t.List? && AllInts(sorted) && Ascending(sorted)
    requires forall j | 0 <= j < |sorted| ::
               HasChild(t, sorted[j].0) && sorted[j].0 in m && m[sorted[j].0] == sorted[j].1
    requires forall i | 0 <= i < |t.items| :: HasInt(sorted, i)
    ensures |sorted| == |t.items|
    ensures forall i | 0 <= i < |sorted| :: Decimal(i) in m && sorted[i] == (Decimal(i), m[Decimal(i)])
  {
    hide IsInt;
    hide IntOf;
    hide Decimal;
    Ranked(sorted, |t.items|);
    forall i | 0 <= i < |sorted| ensures Decimal(i) in m && sorted[i] == (Decimal(i), m[Decimal(i)]) {
      assert sorted[i].0 == Decimal(i);
    }
  }

  lemma ListUntied(es: Pairs<Tree>, t: Tree)
    requires t.List? && Distinct(es) && AllInts(es) && forall k :: k in Contents(es) <==> HasChild(t, k)
    ensures NoTies(es)
  {
    hide IsInt;
    hide IntOf;
    hide Decimal;
    forall p, q | p in es && q in es && p != q ensures IntOf(p.0) != IntOf(q.0) {
      assert (p.0, p.1) in es && (q.0, q.1) in es;
      ContentsHas(es, p.0);
      ContentsHas(es, q.0);
      assert p.0 == Decimal(IntOf(p.0)) && q.0 == Decimal(IntOf(q.0));
    }
  }

  /** A tree of non-empty dictionaries and lists with good components comes back from its paths, put in
      any order, if and only if it has no dictionary whose keys are all integers. */
  lemma {:induction false} RoundTrip(ps: Pairs<string>, t: Tree)
    requires Good(t) && Printed(ps, t)
    ensures Normalise(ps) == t <==> IntFree(t)
    decreases t
  {
    var es := Entries(ps);
    var m := Contents(es);
    forall k | HasChild(t, k)
      ensures k in m && (m[k] == Child(t, k) <==> Child(t, k).Leaf? || IntFree(Child(t, k)))
    {
      EntriesPrinted(ps, t, k);
      if !Child(t, k).Leaf? {
        GroupPrinted(ps, t, k);
        RoundTrip(Group(ps, k), Child(t, k));
      }
    }
    if t.List? {
      RoundTripList(ps, t);
    } else {
      RoundTripDict(ps, t);
    }
  }

  ghost predicate SameChildren(m: map<string, Tree>, t: Tree) {
    forall k | HasChild(t, k) :: k in m && m[k] == Child(t, k)
  }

  lemma RoundTripDict(ps: Pairs<string>, t: Tree)
    requires Good(t) && Printed(ps, t) && !t.List?
    ensures Normalise(ps) == t <==>
              SameChildren(Contents(Entries(ps)), t) && exists k | k in t.entries :: !IsInt(k)
  {
    hide Entries;
    hide IsInt;
    var es := Entries(ps);
    var m := Contents(es);
    EntriesAre(ps);
    AllIntKeys(es);
    forall k ensures k in m <==> HasChild(t, k) {
      EntriesPrinted(ps, t, k);
    }
    assert m.Keys == t.entries.Keys;
    assert SameChildren(m, t) <==> m == t.entries;
  }

  lemma RoundTripList(ps: Pairs<string>, t: Tree)
    requires Good(t) && Printed(ps, t) && t.List?
    ensures Normalise(ps) == t <==> SameChildren(Contents(Entries(ps)), t)
  {
    hide Entries;
    hide IsInt;
    hide IntOf;
    hide Decimal;
    var m := Contents(Entries(ps));
    ListSorted(ps, t);
    var values := Values(SortByInt(Entries(ps)));
    assert forall i | 0 <= i < |t.items| :: values[i] == m[Decimal(i)];
    forall i | 0 <= i < |t.items| ensures HasChild(t, Decimal(i)) && Child(t, Decimal(i)) == t.items[i] {
      DecimalIsInt(i);
    }
    if SameChildren(m, t) {
      assert forall i | 0 <= i < |t.items| :: values[i] == t.items[i];
      assert values == t.items;
    }
    if values == t.items {
      assert forall k | HasChild(t, k) :: m[k] == values[IntOf(k)];
    }
  }

  // ---------------------------------------------------------------------------------------------
  // Every tree can be printed
  // ---------------------------------------------------------------------------------------------

  ghost function Names(t: Tree): (names: set<string>)
    ensures forall k :: k in names <==> HasChild(t, k)
  {
    match t
    case Leaf(_) => {}
    case Dict(entries) => entries.Keys
    case List(items) =>
      assert forall i: nat :: IsInt(Decimal(i)) && IntOf(Decimal(i)) == i by {
        forall i: nat ensures IsInt(Decimal(i)) && IntOf(Decimal(i)) == i {
          DecimalIsInt(i);
        }
      }
      set i | 0 <= i < |items| :: Decimal(i)
  }

  /** The pairs are the paths through some of the components. */
  ghost predicate PrintedPart(ps: Pairs<string>, t: Tree, names: set<string>) {
    && Distinct(ps)
    && (forall key, v :: (key, v) in ps <==>
          exists k | k in names && HasChild(t, k) :: PrintsUnder(Child(t, k), k, key, v))
  }

  function Prefixed(k: string, ps: Pairs<string>): Pairs<string> {
    seq(|ps|, i requires 0 <= i < |ps| => (k + "__" + ps[i].0, ps[i].1))
  }

  lemma PrefixedHas(k: string, ps: Pairs<string>, key: string, v: string)
    ensures (key, v) in Prefixed(k, ps) <==> exists rest :: key == k + "__" + rest && (rest, v) in ps
  {
    var qs := Prefixed(k, ps);
    if i :| 0 <= i < |qs| && qs[i] == (key, v) {
      assert (ps[i].0, v) in ps;
    }
    if rest :| key == k + "__" + rest && (rest, v) in ps {
      var i :| 0 <= i < |ps| && ps[i] == (rest, v);
      assert qs[i] == (key, v);
    }
  }

  lemma PrefixedDistinct(k: string, ps: Pairs<string>)
    requires Distinct(ps)
    ensures Distinct(Prefixed(k, ps))
  {
    var qs := Prefixed(k, ps);
    forall i, j | 0 <= i < j < |qs| ensures qs[i].0 != qs[j].0 {
      assert qs[i].0[|k| + 2..] == ps[i].0 && qs[j].0[|k| + 2..] == ps[j].0;
    }
  }

  lemma FirstOfPath(t: Tree, k: string, key: string, v: string)
    requires HasChild(t, k) && Component(k) && PrintsUnder(Child(t, k), k, key, v)
    ensures FirstComponent(key) == k
  {
    if Child(t, k).Leaf? {
      Components(k);
    } else {
      var rest :| key == k + "__" + rest && Prints(Child(t, k), rest, v);
      Joined(k, rest);
    }
  }

  /** The paths through one component. */
  lemma {:induction false} PrintChild(t: Tree, k: string) returns (ps: Pairs<string>)
    requires Good(t) && HasChild(t, k)
    ensures Distinct(ps) && forall key, v :: (key, v) in ps <==> PrintsUnder(Child(t, k), k, key, v)
    decreases t, 0
  {
    var child := Child(t, k);
    if child.Leaf? {
      ps := [(k, child.value)];
    } else {
      var qs := PrintTree(child);
      ps := Prefixed(k, qs);
      PrefixedDistinct(k, qs);
      forall key, v ensures (key, v) in ps <==> PrintsUnder(child, k, key, v) {
        PrefixedHas(k, qs, key, v);
      }
    }
  }

  lemma AddPart(ps: Pairs<string>, qs: Pairs<string>, t: Tree, names: set<string>, k: string)
    requires Good(t) && HasChild(t, k) && PrintedPart(ps, t, names) && k !in names
    requires Distinct(qs) && forall key, v :: (key, v) in qs <==> PrintsUnder(Child(t, k), k, key, v)
    ensures PrintedPart(ps + qs, t, names + {k})
  {
    hide PrintsUnder;
    forall i, j | 0 <= i < |ps| && 0 <= j < |qs| ensures ps[i].0 != qs[j].0 {
      assert (ps[i].0, ps[i].1) in ps && (qs[j].0, qs[j].1) in qs;
      var k' :| k' in names && HasChild(t, k') && PrintsUnder(Child(t, k'), k', ps[i].0, ps[i].1);
      assert Component(k) && Component(k');
      FirstOfPath(t, k, qs[j].0, qs[j].1);
      FirstOfPath(t, k', ps[i].0, ps[i].1);
    }
    assert forall key, v :: (key, v) in ps + qs <==> (key, v) in ps || (key, v) in qs;
  }

  lemma PrintedAll(ps: Pairs<string>, t: Tree)
    requires PrintedPart(ps, t, Names(t))
    ensures Printed(ps, t)
  {
    hide PrintsUnder;
  }

  /** Every such tree has pairs that print it, so that the round trip is about every such tree. */
  lemma {:induction false} PrintTree(t: Tree) returns (ps: Pairs<string>)
    requires Good(t)
    ensures Printed(ps, t)
    decreases t, 1
  {
    ps := [];
    var rest := Names(t);
    PrintedNothing(t);
    hide PrintedPart;
    hide PrintsUnder;
    hide Prints;
    hide Printed;
    while rest != {}
      invariant rest <= Names(t) && PrintedPart(ps, t, Names(t) - rest)
      decreases |rest|
    {
      var k :| k in rest;
      var qs := PrintChild(t, k);
      AddPart(ps, qs, t, Names(t) - rest, k);
      assert Names(t) - (rest - {k}) == Names(t) - rest + {k};
      ps, rest := ps + qs, rest - {k};
    }
    assert Names(t) - rest == Names(t);
    PrintedAll(ps, t);
  }

  lemma PrintedNothing(t: Tree)
    ensures PrintedPart([], t, Names(t) - Names(t))
  {
  }
}
