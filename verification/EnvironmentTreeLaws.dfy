/** What the parser makes of an environment: its entries, its leaves, and what it undoes. */
module EnvironmentTreeLaws {
  import opened EnvironmentTree
  import opened PythonInt

  // ---------------------------------------------------------------------------------------------
  // Dictionaries
  // ---------------------------------------------------------------------------------------------

  lemma {:induction false} ContentsHas<V>(ps: Pairs<V>, key: string)
    requires Distinct(ps)
    ensures key in Contents(ps) ==> (key, Contents(ps)[key]) in ps
    ensures forall v | (key, v) in ps :: key in Contents(ps) && Contents(ps)[key] == v
  {
    if ps != [] {
      var rest := ps[1..];
      ContentsHas(rest, key);
      assert ps == [ps[0]] + rest;
      if key == ps[0].0 {
        assert forall v :: (key, v) !in rest;
      }
    }
  }

  ghost predicate HasKey<V>(ps: Pairs<V>, key: string) {
    exists i | 0 <= i < |ps| :: ps[i].0 == key
  }

  lemma {:induction false} PutKeys<V>(ps: Pairs<V>, key: string, value: V, other: string)
    requires HasKey(Put(ps, key, value), other)
    ensures other == key || HasKey(ps, other)
  {
    var put := Put(ps, key, value);
    var i :| 0 <= i < |put| && put[i].0 == other;
    if ps != [] && i > 0 {
      if ps[0].0 == key {
        assert put[i] == ps[i];
      } else {
        assert put[i] == Put(ps[1..], key, value)[i - 1];
        PutKeys(ps[1..], key, value, other);
        if HasKey(ps[1..], other) {
          var j :| 0 <= j < |ps[1..]| && ps[1..][j].0 == other;
          assert ps[j + 1].0 == other;
        }
      }
    }
  }

  lemma DistinctCons<V>(p: (string, V), ps: Pairs<V>)
    requires Distinct(ps) && !HasKey(ps, p.0)
    ensures Distinct([p] + ps)
  {
  }

  lemma DistinctRest<V>(ps: Pairs<V>)
    requires Distinct(ps) && ps != []
    ensures Distinct(ps[1..]) && !HasKey(ps[1..], ps[0].0)
  {
  }

  lemma {:induction false} PutDistinct<V>(ps: Pairs<V>, key: string, value: V)
    requires Distinct(ps)
    ensures Distinct(Put(ps, key, value))
  {
    hide Distinct;
    hide HasKey;
    if ps == [] {
      Single((key, value));
    } else {
      DistinctRest(ps);
      if ps[0].0 == key {
        DistinctCons((key, value), ps[1..]);
      } else {
        PutDistinct(ps[1..], key, value);
        if HasKey(Put(ps[1..], key, value), ps[0].0) {
          PutKeys(ps[1..], key, value, ps[0].0);
        }
        DistinctCons(ps[0], Put(ps[1..], key, value));
      }
    }
  }

  lemma Single<V>(p: (string, V))
    ensures Distinct([p])
  {
  }

  lemma KeyOfContents<V>(ps: Pairs<V>, key: string)
    requires Distinct(ps)
    ensures key in Contents(ps) <==> HasKey(ps, key)
  {
    ContentsHas(ps, key);
    if HasKey(ps, key) {
      var i :| 0 <= i < |ps| && ps[i].0 == key;
      assert (key, ps[i].1) in ps;
    }
  }

  lemma {:induction false} PutContents<V>(ps: Pairs<V>, key: string, value: V)
    requires Distinct(ps)
    ensures Contents(Put(ps, key, value)) == Contents(ps)[key := value]
  {
    hide Distinct;
    hide HasKey;
    if ps != [] {
      DistinctRest(ps);
      var rest := ps[1..];
      if ps[0].0 == key {
        KeyOfContents(rest, key);
        assert Put(ps, key, value)[1..] == rest;
      } else {
        PutContents(rest, key, value);
        assert Put(ps, key, value)[1..] == Put(rest, key, value);
        assert map[ps[0].0 := ps[0].1] + Contents(rest)[key := value]
            == (map[ps[0].0 := ps[0].1] + Contents(rest))[key := value];
      }
    } else {
      assert Put(ps, key, value)[1..] == [];
    }
  }

  lemma MapPut<V>(m: map<string, V>, key: string, value: V, more: map<string, V>)
    ensures m[key := value] + more == m + (map[key := value] + more)
  {
  }

  lemma {:induction false} UpdateContents<V>(ps: Pairs<V>, more: Pairs<V>)
    requires Distinct(ps)
    ensures Distinct(Update(ps, more)) && Contents(Update(ps, more)) == Contents(ps) + Contents(more)
    decreases |more|
  {
    hide Distinct;
    if more != [] {
      PutDistinct(ps, more[0].0, more[0].1);
      PutContents(ps, more[0].0, more[0].1);
      UpdateContents(Put(ps, more[0].0, more[0].1), more[1..]);
      MapPut(Contents(ps), more[0].0, more[0].1, Contents(more[1..]));
    }
  }

  // ---------------------------------------------------------------------------------------------
  // Entries
  // ---------------------------------------------------------------------------------------------

  lemma {:induction false} WithoutMoreHas(ps: Pairs<string>)
    requires Distinct(ps)
    ensures Distinct(WithoutMore(ps))
    ensures forall k, t :: (k, t) in WithoutMore(ps) <==>
              t.Leaf? && (k, t.value) in ps && LaterComponents(k) == ""
  {
    if ps != [] {
      var rest := ps[1..];
      WithoutMoreHas(rest);
      assert ps == [ps[0]] + rest;
      assert forall t :: (ps[0].0, t) !in WithoutMore(rest) by {
        assert forall v :: (ps[0].0, v) !in rest;
      }
      if LaterComponents(ps[0].0) == "" {
        var w := WithoutMore(rest);
        assert WithoutMore(ps) == [(ps[0].0, Leaf(ps[0].1))] + w;
        forall i | 0 <= i < |w| ensures w[i].0 != ps[0].0 {
          assert (w[i].0, w[i].1) in w;
        }
      } else {
        assert WithoutMore(ps) == WithoutMore(rest);
      }
    }
  }

  /** A key with more components and the given first one. */
  predicate Under(key: string, name: string) {
    LaterComponents(key) != "" && FirstComponent(key) == name
  }

  lemma {:induction false} GroupHas(ps: Pairs<string>, name: string)
    requires Distinct(ps)
    ensures Distinct(Group(ps, name))
    ensures forall l, v :: (l, v) in Group(ps, name) <==>
              (name + "__" + l, v) in ps && Under(name + "__" + l, name) && LaterComponents(name + "__" + l) == l
  {
    if ps != [] {
      var rest, key := ps[1..], ps[0].0;
      GroupHas(rest, name);
      assert ps == [ps[0]] + rest;
      if Under(key, name) {
        Recomposed(key);
        var l0, g := LaterComponents(key), Group(rest, name);
        assert Group(ps, name) == [(l0, ps[0].1)] + g;
        forall i | 0 <= i < |g| ensures g[i].0 != l0 {
          assert (g[i].0, g[i].1) in g;
          assert (name + "__" + g[i].0, g[i].1) in rest;
        }
      } else {
        assert Group(ps, name) == Group(rest, name);
      }
    }
  }

  lemma {:induction false} GroupNamesAre(ps: Pairs<string>, name: string)
    ensures name in GroupNames(ps) <==> Group(ps, name) != []
  {
    if ps != [] {
      GroupNamesAre(ps[1..], name);
      if LaterComponents(ps[0].0) != "" {
        InsertedNames(FirstComponent(ps[0].0), GroupNames(ps[1..]));
      }
    }
  }

  lemma {:induction false} GroupsContents(ps: Pairs<string>, names: seq<string>)
    requires forall n | n in names :: Group(ps, n) != []
    ensures forall n :: n in Contents(Groups(ps, names)) <==> n in names
    ensures forall n | n in names :: Contents(Groups(ps, names))[n] == Normalise(Group(ps, n))
    decreases |names|
  {
    hide Group;
    hide Normalise;
    if names != [] {
      GroupsContents(ps, names[1..]);
      assert names == [names[0]] + names[1..];
      assert Groups(ps, names)[1..] == Groups(ps, names[1..]);
      assert Contents(Groups(ps, names))
          == map[names[0] := Normalise(Group(ps, names[0]))] + Contents(Groups(ps, names[1..]));
    }
  }

  /** What the entries of one level are, key by key. */
  ghost predicate EntryIs(ps: Pairs<string>, m: map<string, Tree>, name: string) {
    if Group(ps, name) != [] then name in m && m[name] == Normalise(Group(ps, name))
    else if name in m then
      m[name].Leaf? && (name, m[name].value) in ps && LaterComponents(name) == ""
    else forall v :: (name, v) in ps ==> LaterComponents(name) != ""
  }

  /** A key that has later components goes into the group of its first; any other key is an entry of its
      own, unless a group of that name takes its place. */
  lemma EntriesAre(ps: Pairs<string>)
    requires Distinct(ps)
    ensures Distinct(Entries(ps))
    ensures forall name :: EntryIs(ps, Contents(Entries(ps)), name)
  {
    var plain, names := WithoutMore(ps), GroupNames(ps);
    WithoutMoreHas(ps);
    UpdateContents(plain, Groups(ps, names));
    GroupsContents(ps, names);
    forall name ensures EntryIs(ps, Contents(Entries(ps)), name) {
      GroupNamesAre(ps, name);
      ContentsHas(plain, name);
      if name in names {
        assert name in Contents(Groups(ps, names));
      } else {
        if name !in Contents(plain) {
          assert forall v | (name, v) in ps && LaterComponents(name) == "" :: (name, Leaf(v)) in plain;
        }
      }
    }
  }

  // ---------------------------------------------------------------------------------------------
  // Sorting
  // ---------------------------------------------------------------------------------------------

  ghost predicate SameElements<V(!new)>(ps: Pairs<V>, qs: Pairs<V>) {
    forall p :: p in ps <==> p in qs
  }

  lemma {:induction false} InsertKeeps<V>(p: (string, V), ps: Pairs<V>)
    requires IsInt(p.0) && AllInts(ps)
    ensures forall q :: q in InsertByInt(p, ps) <==> q == p || q in ps
  {
    if ps != [] && IntOf(p.0) > IntOf(ps[0].0) {
      InsertKeeps(p, ps[1..]);
      assert ps == [ps[0]] + ps[1..];
    }
  }

  lemma {:induction false} SortKeeps<V(!new)>(ps: Pairs<V>)
    requires AllInts(ps)
    ensures SameElements(SortByInt(ps), ps)
  {
    if ps != [] {
      SortKeeps(ps[1..]);
      InsertKeeps(ps[0], SortByInt(ps[1..]));
      assert ps == [ps[0]] + ps[1..];
    }
  }

  /** No two entries have the same integer for a key. */
  ghost predicate NoTies<V>(ps: Pairs<V>)
    requires AllInts(ps)
  {
    forall p, q | p in ps && q in ps && p != q :: IntOf(p.0) != IntOf(q.0)
  }

  ghost predicate Ascending<V>(ps: Pairs<V>)
    requires AllInts(ps)
  {
    forall i, j | 0 <= i < j < |ps| :: IntOf(ps[i].0) < IntOf(ps[j].0)
  }

  ghost predicate Above<V>(bound: int, ps: Pairs<V>)
    requires AllInts(ps)
  {
    forall i | 0 <= i < |ps| :: bound < IntOf(ps[i].0)
  }

  lemma {:induction false} InsertAbove<V>(p: (string, V), ps: Pairs<V>, bound: int)
    requires IsInt(p.0) && AllInts(ps) && bound < IntOf(p.0) && Above(bound, ps)
    ensures Above(bound, InsertByInt(p, ps))
  {
    hide IsInt;
    hide IntOf;
    if ps != [] && IntOf(p.0) > IntOf(ps[0].0) {
      InsertAbove(p, ps[1..], bound);
    }
  }

  lemma {:induction false} InsertAscends<V>(p: (string, V), ps: Pairs<V>)
    requires IsInt(p.0) && AllInts(ps) && Ascending(ps)
    requires forall i | 0 <= i < |ps| :: IntOf(p.0) != IntOf(ps[i].0)
    ensures Ascending(InsertByInt(p, ps))
  {
    hide IsInt;
    hide IntOf;
    if ps != [] && IntOf(p.0) > IntOf(ps[0].0) {
      InsertAscends(p, ps[1..]);
      InsertAbove(p, ps[1..], IntOf(ps[0].0));
    }
  }

  lemma {:induction false} SortAscends<V(!new)>(ps: Pairs<V>)
    requires AllInts(ps) && NoTies(ps) && Distinct(ps)
    ensures Ascending(SortByInt(ps))
  {
    if ps != [] {
      var rest := ps[1..];
      assert ps == [ps[0]] + rest;
      SortAscends(rest);
      SortKeeps(rest);
      var sorted := SortByInt(rest);
      forall i | 0 <= i < |sorted| ensures IntOf(ps[0].0) != IntOf(sorted[i].0) {
        assert sorted[i] in sorted;
        var j :| 0 <= j < |rest| && rest[j] == sorted[i];
        assert ps[j + 1] == sorted[i];
      }
      InsertAscends(ps[0], SortByInt(rest));
    }
  }

  /** Two ascending lists with the same elements are the same list. */
  lemma {:induction false} AscendingUnique<V(!new)>(ps: Pairs<V>, qs: Pairs<V>)
    requires AllInts(ps) && AllInts(qs) && Ascending(ps) && Ascending(qs) && SameElements(ps, qs)
    ensures ps == qs
  {
    hide IsInt;
    hide IntOf;
    if qs != [] {
      assert qs[0] in ps;
    }
    if ps != [] {
      assert ps[0] in qs && qs[0] in ps;
      assert ps == [ps[0]] + ps[1..] && qs == [qs[0]] + qs[1..];
      assert ps[0] == qs[0];
      RestHas(ps);
      RestHas(qs);
      assert SameElements(ps[1..], qs[1..]);
      AscendingUnique(ps[1..], qs[1..]);
    }
  }

  lemma RestHas<V>(ps: Pairs<V>)
    requires ps != [] && AllInts(ps) && Ascending(ps)
    ensures forall p :: p in ps[1..] <==> p in ps && p != ps[0]
  {
    assert ps == [ps[0]] + ps[1..];
  }

  lemma SortUnique<V(!new)>(ps: Pairs<V>, qs: Pairs<V>)
    requires AllInts(ps) && AllInts(qs) && NoTies(ps) && Distinct(ps) && Distinct(qs) && SameElements(ps, qs)
    ensures SortByInt(ps) == SortByInt(qs)
  {
    SortKeeps(ps);
    SortKeeps(qs);
    SortAscends(ps);
    SortAscends(qs);
    AscendingUnique(SortByInt(ps), SortByInt(qs));
  }

  lemma SameValue<V>(ps: Pairs<V>, key: string, v: V, w: V)
    requires Distinct(ps) && (key, v) in ps && (key, w) in ps
    ensures v == w
  {
  }
}
