/** Which values of an environment are found in the tree, and where. */
module EnvironmentTreeLeaves {
  import opened EnvironmentTree
  import opened EnvironmentTreeLaws
  import opened PythonInt
  import opened Wrappers

  // ---------------------------------------------------------------------------------------------
  // Shadows
  // ---------------------------------------------------------------------------------------------

  /** The path a key stands for. */
  function Path(key: string): (path: seq<string>)
    ensures |path| > 0 && (|path| > 1 <==> LaterComponents(key) != "")
    decreases |key|
  {
    if LaterComponents(key) == "" then [key]
    else
      Recomposed(key);
      [FirstComponent(key)] + Path(LaterComponents(key))
  }

  /** Another key goes on where this one ends. */
  ghost predicate Shadowed(ps: Pairs<string>, key: string) {
    exists i | 0 <= i < |ps| :: Path(key) < Path(ps[i].0)
  }

  lemma {:induction false} GroupNonEmpty(ps: Pairs<string>, name: string)
    ensures Group(ps, name) != [] <==> exists i | 0 <= i < |ps| :: Under(ps[i].0, name)
  {
    if ps != [] {
      GroupNonEmpty(ps[1..], name);
      if Group(ps[1..], name) != [] {
        var i :| 0 <= i < |ps[1..]| && Under(ps[1..][i].0, name);
        assert Under(ps[i + 1].0, name);
      }
      if i :| 0 <= i < |ps| && Under(ps[i].0, name) && i > 0 {
        assert ps[1..][i - 1] == ps[i];
      }
    }
  }

  lemma ShadowedAtOnce(ps: Pairs<string>, key: string)
    requires LaterComponents(key) == ""
    ensures Shadowed(ps, key) <==> Group(ps, key) != []
  {
    GroupNonEmpty(ps, key);
    assert Path(key) == [key];
    forall i | 0 <= i < |ps| ensures Path(key) < Path(ps[i].0) <==> Under(ps[i].0, key) {
      var path := Path(ps[i].0);
      assert Path(key) < path <==> |path| > 1 && path[0] == key;
    }
  }

  lemma ShadowedBelow(ps: Pairs<string>, key: string, name: string)
    requires Distinct(ps) && Under(key, name)
    ensures Shadowed(ps, key) <==> Shadowed(Group(ps, name), LaterComponents(key))
  {
    hide FirstComponent;
    hide LaterComponents;
    hide Group;
    hide Distinct;
    var g, l := Group(ps, name), LaterComponents(key);
    GroupHas(ps, name);
    assert Path(key) == [name] + Path(l);
    if i :| 0 <= i < |ps| && Path(key) < Path(ps[i].0) {
      var other := ps[i].0;
      assert |Path(other)| > 1 && Path(other)[0] == name;
      Recomposed(other);
      assert Path(other)[1..] == Path(LaterComponents(other));
      assert Path(key)[1..] == Path(l);
      assert (LaterComponents(other), ps[i].1) in g;
      var j :| 0 <= j < |g| && g[j] == (LaterComponents(other), ps[i].1);
      assert Path(l) < Path(g[j].0);
    }
    if j :| 0 <= j < |g| && Path(l) < Path(g[j].0) {
      var other := name + "__" + g[j].0;
      assert (g[j].0, g[j].1) in g;
      var i :| 0 <= i < |ps| && ps[i] == (other, g[j].1);
      assert Path(other) == [name] + Path(g[j].0);
      assert Path(key) < Path(ps[i].0);
    }
  }

  // ---------------------------------------------------------------------------------------------
  // Places in a tree
  // ---------------------------------------------------------------------------------------------

  datatype Step = Name(name: string) | Index(i: nat)

  function At(t: Tree, place: seq<Step>): Option<Tree>
    decreases |place|
  {
    if place == [] then Some(t)
    else
      match t
      case Leaf(_) => None
      case Dict(m) =>
        if place[0].Name? && place[0].name in m then At(m[place[0].name], place[1..]) else None
      case List(items) =>
        if place[0].Index? && place[0].i < |items| then At(items[place[0].i], place[1..]) else None
  }

  function IndexOf<V>(ps: Pairs<V>, name: string): (i: nat)
    ensures i <= |ps| && (i < |ps| ==> ps[i].0 == name)
    ensures i == |ps| ==> forall j | 0 <= j < |ps| :: ps[j].0 != name
  {
    if ps == [] || ps[0].0 == name then 0 else 1 + IndexOf(ps[1..], name)
  }

  /** The way to an entry of the first level. */
  function StepTo(ps: Pairs<string>, name: string): Step {
    var es := Entries(ps);
    if AllInts(es) then Index(IndexOf(SortByInt(es), name)) else Name(name)
  }

  /** The place of the value of a key. */
  function Place(ps: Pairs<string>, key: string): seq<Step>
    decreases |key|
  {
    if LaterComponents(key) == "" then [StepTo(ps, key)]
    else
      Recomposed(key);
      [StepTo(ps, FirstComponent(key))] + Place(Group(ps, FirstComponent(key)), LaterComponents(key))
  }

  /** A sorted list has an entry exactly where its name is, and nowhere else. */
  lemma SortedIndex(es: Pairs<Tree>, name: string)
    requires Distinct(es) && AllInts(es) && name in Contents(es)
    ensures var sorted := SortByInt(es);
            IndexOf(sorted, name) < |sorted| && sorted[IndexOf(sorted, name)] == (name, Contents(es)[name])
  {
    hide IsInt;
    var sorted := SortByInt(es);
    var i := IndexOf(sorted, name);
    SortKeeps(es);
    ContentsHas(es, name);
    assert (name, Contents(es)[name]) in sorted;
    assert sorted[i] in es;
    assert (sorted[i].0, sorted[i].1) in es;
  }

  lemma StepLeads(ps: Pairs<string>, name: string, rest: seq<Step>)
    requires Distinct(ps) && name in Contents(Entries(ps))
    ensures At(Normalise(ps), [StepTo(ps, name)] + rest) == At(Contents(Entries(ps))[name], rest)
  {
    hide Entries;
    EntriesAre(ps);
    var place := [StepTo(ps, name)] + rest;
    assert place[1..] == rest;
    if AllInts(Entries(ps)) {
      SortedIndex(Entries(ps), name);
    }
  }

  lemma StepComesFrom(ps: Pairs<string>, place: seq<Step>) returns (name: string)
    requires Distinct(ps) && place != [] && At(Normalise(ps), place).Some?
    ensures name in Contents(Entries(ps)) && StepTo(ps, name) == place[0]
  {
    hide Entries;
    EntriesAre(ps);
    var es := Entries(ps);
    if AllInts(es) {
      var sorted, i := SortByInt(es), place[0].i;
      SortKeeps(es);
      assert sorted[i] in es;
      name := sorted[i].0;
      assert (name, sorted[i].1) in es;
      ContentsHas(es, name);
      IndexUnique(es, i);
    } else {
      name := place[0].name;
    }
  }

  lemma IndexUnique(es: Pairs<Tree>, i: nat)
    requires Distinct(es) && AllInts(es) && i < |SortByInt(es)|
    ensures IndexOf(SortByInt(es), SortByInt(es)[i].0) == i
  {
    hide IsInt;
    SortDistinct(es);
  }

  lemma {:induction false} InsertDistinct<V>(p: (string, V), ps: Pairs<V>)
    requires IsInt(p.0) && AllInts(ps) && Distinct(ps) && !HasKey(ps, p.0)
    ensures Distinct(InsertByInt(p, ps))
    ensures forall k :: HasKey(InsertByInt(p, ps), k) <==> k == p.0 || HasKey(ps, k)
  {
    hide IsInt;
    hide IntOf;
    var r := InsertByInt(p, ps);
    if ps == [] || IntOf(p.0) <= IntOf(ps[0].0) {
      assert r == [p] + ps;
      KeysOfCons(p, ps);
    } else {
      InsertDistinct(p, ps[1..]);
      assert ps == [ps[0]] + ps[1..] && r == [ps[0]] + InsertByInt(p, ps[1..]);
      KeysOfCons(ps[0], ps[1..]);
      KeysOfCons(ps[0], InsertByInt(p, ps[1..]));
      DistinctRest(ps);
      DistinctCons(ps[0], InsertByInt(p, ps[1..]));
    }
  }

  lemma KeysOfCons<V>(p: (string, V), ps: Pairs<V>)
    ensures forall k :: HasKey([p] + ps, k) <==> k == p.0 || HasKey(ps, k)
  {
    var r := [p] + ps;
    assert r[0] == p;
    forall k | HasKey(ps, k) ensures HasKey(r, k) {
      var i :| 0 <= i < |ps| && ps[i].0 == k;
      assert r[i + 1].0 == k;
    }
  }

  lemma {:induction false} SortDistinct<V>(ps: Pairs<V>)
    requires AllInts(ps) && Distinct(ps)
    ensures Distinct(SortByInt(ps))
    ensures forall k :: HasKey(SortByInt(ps), k) <==> HasKey(ps, k)
  {
    hide IsInt;
    if ps != [] {
      SortDistinct(ps[1..]);
      DistinctRest(ps);
      InsertDistinct(ps[0], SortByInt(ps[1..]));
      assert ps == [ps[0]] + ps[1..];
      KeysOfCons(ps[0], ps[1..]);
    }
  }

  lemma StepsDiffer(ps: Pairs<string>, name: string, name': string)
    requires Distinct(ps) && name in Contents(Entries(ps)) && name' in Contents(Entries(ps))
    requires StepTo(ps, name) == StepTo(ps, name')
    ensures name == name'
  {
    hide Entries;
    EntriesAre(ps);
    if AllInts(Entries(ps)) {
      SortedIndex(Entries(ps), name);
      SortedIndex(Entries(ps), name');
    }
  }

  // ---------------------------------------------------------------------------------------------
  // Keys and leaves
  // ---------------------------------------------------------------------------------------------

  ghost predicate Unshadowed(ps: Pairs<string>, key: string, v: string) {
    (key, v) in ps && !Shadowed(ps, key)
  }

  /** What an unshadowed key has to do with the entries of the first level. */
  lemma UnshadowedAtOnce(ps: Pairs<string>, key: string, v: string)
    requires Distinct(ps) && Unshadowed(ps, key, v) && LaterComponents(key) == ""
    ensures var m := Contents(Entries(ps)); key in m && m[key] == Leaf(v) && Group(ps, key) == []
  {
    hide Entries;
    EntriesAre(ps);
    ShadowedAtOnce(ps, key);
    var m := Contents(Entries(ps));
    assert EntryIs(ps, m, key);
    SameValue(ps, key, v, m[key].value);
  }

  lemma UnshadowedBelow(ps: Pairs<string>, key: string, v: string)
    requires Distinct(ps) && Unshadowed(ps, key, v) && LaterComponents(key) != ""
    ensures var m, name := Contents(Entries(ps)), FirstComponent(key);
            && Distinct(Group(ps, name)) && Unshadowed(Group(ps, name), LaterComponents(key), v)
            && Group(ps, name) != [] && name in m && m[name] == Normalise(Group(ps, name))
  {
    hide Entries;
    var name := FirstComponent(key);
    EntriesAre(ps);
    Recomposed(key);
    GroupHas(ps, name);
    ShadowedBelow(ps, key, name);
    assert (LaterComponents(key), v) in Group(ps, name);
    assert EntryIs(ps, Contents(Entries(ps)), name);
  }

  /** Every key that no other key goes on from has its value at its own place. */
  lemma {:induction false} ValueAtPlace(ps: Pairs<string>, key: string, v: string)
    requires Distinct(ps) && Unshadowed(ps, key, v)
    ensures At(Normalise(ps), Place(ps, key)) == Some(Leaf(v))
    decreases |key|
  {
    hide Normalise;
    hide StepTo;
    hide Unshadowed;
    if LaterComponents(key) == "" {
      UnshadowedAtOnce(ps, key, v);
      StepLeads(ps, key, []);
      assert [StepTo(ps, key)] + [] == [StepTo(ps, key)];
    } else {
      var name, l := FirstComponent(key), LaterComponents(key);
      Recomposed(key);
      UnshadowedBelow(ps, key, v);
      ValueAtPlace(Group(ps, name), l, v);
      StepLeads(ps, name, Place(Group(ps, name), l));
    }
  }

  /** Every leaf is at the place of such a key. */
  lemma {:induction false} LeafHasKey(ps: Pairs<string>, place: seq<Step>, v: string) returns (key: string)
    requires Distinct(ps) && At(Normalise(ps), place) == Some(Leaf(v))
    ensures Unshadowed(ps, key, v) && Place(ps, key) == place
    decreases |place|
  {
    hide Entries;
    assert place != [];
    EntriesAre(ps);
    var m := Contents(Entries(ps));
    var name := StepComesFrom(ps, place);
    var rest := place[1..];
    assert place == [place[0]] + rest;
    StepLeads(ps, name, rest);
    assert EntryIs(ps, m, name);
    if Group(ps, name) == [] {
      key := name;
      ShadowedAtOnce(ps, name);
    } else {
      GroupHas(ps, name);
      var l := LeafHasKey(Group(ps, name), rest, v);
      key := name + "__" + l;
      assert (l, v) in Group(ps, name);
      ShadowedBelow(ps, key, name);
    }
  }

  /** No two such keys share a place. */
  lemma {:induction false} PlacesDiffer(ps: Pairs<string>, key: string, v: string, key': string, v': string)
    requires Distinct(ps) && Unshadowed(ps, key, v) && Unshadowed(ps, key', v')
    requires Place(ps, key) == Place(ps, key')
    ensures key == key'
    decreases |key|
  {
    hide Unshadowed;
    hide StepTo;
    var l, l' := LaterComponents(key), LaterComponents(key');
    var name := if l == "" then key else FirstComponent(key);
    var name' := if l' == "" then key' else FirstComponent(key');
    assert Place(ps, key)[0] == StepTo(ps, name) && Place(ps, key')[0] == StepTo(ps, name');
    if l == "" { UnshadowedAtOnce(ps, key, v); } else { UnshadowedBelow(ps, key, v); }
    if l' == "" { UnshadowedAtOnce(ps, key', v'); } else { UnshadowedBelow(ps, key', v'); }
    StepsDiffer(ps, name, name');
    if l != "" {
      Recomposed(key);
      Recomposed(key');
      assert Place(ps, key)[1..] == Place(Group(ps, name), l);
      assert Place(ps, key')[1..] == Place(Group(ps, name), l');
      PlacesDiffer(Group(ps, name), l, v, l', v');
    }
  }
}
