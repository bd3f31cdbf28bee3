/** When the order of the pairs matters. */
module EnvironmentTreeOrder {
  import opened EnvironmentTree
  import opened EnvironmentTreeLaws
  import opened PythonInt
  import opened Text

  // ---------------------------------------------------------------------------------------------
  // Lists of values by number
  // ---------------------------------------------------------------------------------------------

  /** The values of the keys that are the number, in order. */
  function TiedValues<V>(ps: Pairs<V>, n: int): seq<V>
    requires AllInts(ps)
  {
    if ps == [] then [] else (if IntOf(ps[0].0) == n then [ps[0].1] else []) + TiedValues(ps[1..], n)
  }

  ghost predicate SameTies<V>(ps: Pairs<V>, qs: Pairs<V>)
    requires AllInts(ps) && AllInts(qs)
  {
    forall n :: TiedValues(ps, n) == TiedValues(qs, n)
  }

  ghost predicate SameCounts<V>(ps: Pairs<V>, qs: Pairs<V>)
    requires AllInts(ps) && AllInts(qs)
  {
    forall n :: |TiedValues(ps, n)| == |TiedValues(qs, n)|
  }

  lemma TiedRest<V>(ps: Pairs<V>, n: int)
    requires AllInts(ps) && ps != []
    ensures AllInts(ps[1..])
    ensures TiedValues(ps, n) == (if IntOf(ps[0].0) == n then [ps[0].1] else []) + TiedValues(ps[1..], n)
  {
  }

  lemma InsertSplits<V>(p: (string, V), ps: Pairs<V>)
    requires IsInt(p.0) && AllInts(ps)
    ensures var r := InsertByInt(p, ps);
            r != [] && if ps == [] || IntOf(p.0) <= IntOf(ps[0].0) then r[0] == p && r[1..] == ps
                       else r[0] == ps[0] && r[1..] == InsertByInt(p, ps[1..])
  {
    hide IsInt;
    hide IntOf;
  }

  lemma {:induction false} TiedInsert<V>(p: (string, V), ps: Pairs<V>, n: int)
    requires IsInt(p.0) && AllInts(ps)
    ensures TiedValues(InsertByInt(p, ps), n) == (if IntOf(p.0) == n then [p.1] else []) + TiedValues(ps, n)
  {
    hide IsInt;
    hide IntOf;
    hide InsertByInt;
    hide TiedValues;
    InsertSplits(p, ps);
    TiedRest(InsertByInt(p, ps), n);
    if ps != [] && IntOf(p.0) > IntOf(ps[0].0) {
      TiedInsert(p, ps[1..], n);
      TiedRest(ps, n);
    }
  }

  /** Sorting keeps the order of keys that are the same number. */
  lemma {:induction false} SortIsStable<V>(ps: Pairs<V>, n: int)
    requires AllInts(ps)
    ensures TiedValues(SortByInt(ps), n) == TiedValues(ps, n)
  {
    hide IsInt;
    hide IntOf;
    if ps != [] {
      SortIsStable(ps[1..], n);
      TiedInsert(ps[0], SortByInt(ps[1..]), n);
    }
  }

  ghost predicate Ordered<V>(ps: Pairs<V>)
    requires AllInts(ps)
  {
    forall i, j | 0 <= i < j < |ps| :: IntOf(ps[i].0) <= IntOf(ps[j].0)
  }

  lemma {:induction false} InsertOrders<V>(p: (string, V), ps: Pairs<V>)
    requires IsInt(p.0) && AllInts(ps) && Ordered(ps)
    ensures Ordered(InsertByInt(p, ps))
    ensures InsertByInt(p, ps)[0] == if ps == [] || IntOf(p.0) <= IntOf(ps[0].0) then p else ps[0]
  {
    hide IsInt;
    hide IntOf;
    if ps != [] && IntOf(p.0) > IntOf(ps[0].0) {
      InsertOrders(p, ps[1..]);
      var rest := InsertByInt(p, ps[1..]);
      forall j | 0 <= j < |rest| ensures IntOf(ps[0].0) <= IntOf(rest[j].0) {
        assert j > 0 ==> IntOf(rest[0].0) <= IntOf(rest[j].0);
      }
    }
  }

  lemma {:induction false} SortOrders<V>(ps: Pairs<V>)
    requires AllInts(ps)
    ensures Ordered(SortByInt(ps))
  {
    hide IsInt;
    hide IntOf;
    if ps != [] {
      SortOrders(ps[1..]);
      InsertOrders(ps[0], SortByInt(ps[1..]));
    }
  }

  lemma {:induction false} TiedAt<V>(ps: Pairs<V>, n: int)
    requires AllInts(ps)
    ensures TiedValues(ps, n) != [] <==> exists i | 0 <= i < |ps| :: IntOf(ps[i].0) == n
  {
    hide IsInt;
    hide IntOf;
    if ps != [] {
      TiedAt(ps[1..], n);
      assert forall i | 0 < i < |ps| :: ps[i] == ps[1..][i - 1];
      assert forall i | 0 <= i < |ps[1..]| :: ps[1..][i] == ps[i + 1];
    }
  }

  lemma FirstIsLeast<V>(ps: Pairs<V>, qs: Pairs<V>)
    requires AllInts(ps) && AllInts(qs) && Ordered(ps) && Ordered(qs) && SameCounts(ps, qs) && ps != []
    ensures qs != [] && IntOf(qs[0].0) <= IntOf(ps[0].0)
  {
    hide IsInt;
    hide IntOf;
    var n := IntOf(ps[0].0);
    TiedAt(ps, n);
    TiedAt(qs, n);
    assert |TiedValues(ps, n)| == |TiedValues(qs, n)|;
  }

  lemma RestCounts<V>(ps: Pairs<V>, qs: Pairs<V>)
    requires AllInts(ps) && AllInts(qs) && SameCounts(ps, qs) && ps != [] && qs != []
    requires IntOf(ps[0].0) == IntOf(qs[0].0)
    ensures SameCounts(ps[1..], qs[1..])
  {
    hide IsInt;
    hide IntOf;
    forall n ensures |TiedValues(ps[1..], n)| == |TiedValues(qs[1..], n)| {
      hide TiedValues;
      TiedRest(ps, n);
      TiedRest(qs, n);
      assert |TiedValues(ps, n)| == |TiedValues(qs, n)|;
    }
  }

  lemma RestTies<V>(ps: Pairs<V>, qs: Pairs<V>)
    requires AllInts(ps) && AllInts(qs) && ps != [] && qs != []
    requires IntOf(ps[0].0) == IntOf(qs[0].0)
    ensures SameTies(ps, qs) <==> ps[0].1 == qs[0].1 && SameTies(ps[1..], qs[1..])
  {
    hide IsInt;
    hide IntOf;
    if SameTies(ps, qs) {
      forall n ensures ps[0].1 == qs[0].1 && TiedValues(ps[1..], n) == TiedValues(qs[1..], n) {
        hide TiedValues;
        var m := IntOf(ps[0].0);
        TiedRest(ps, m);
        TiedRest(qs, m);
        assert TiedValues(ps, m)[0] == TiedValues(qs, m)[0];
        TiedRest(ps, n);
        TiedRest(qs, n);
        assert TiedValues(ps, n) == TiedValues(qs, n);
        if n == m {
          assert TiedValues(ps, n)[1..] == TiedValues(ps[1..], n);
          assert TiedValues(qs, n)[1..] == TiedValues(qs[1..], n);
        } else {
          assert TiedValues(ps, n) == TiedValues(ps[1..], n);
          assert TiedValues(qs, n) == TiedValues(qs[1..], n);
        }
      }
    }
    if ps[0].1 == qs[0].1 && SameTies(ps[1..], qs[1..]) {
      forall n ensures TiedValues(ps, n) == TiedValues(qs, n) {
        hide TiedValues;
        TiedRest(ps, n);
        TiedRest(qs, n);
        assert TiedValues(ps[1..], n) == TiedValues(qs[1..], n);
      }
    }
  }

  lemma {:induction false} OrderedAgree<V>(ps: Pairs<V>, qs: Pairs<V>)
    requires AllInts(ps) && AllInts(qs) && Ordered(ps) && Ordered(qs) && SameCounts(ps, qs)
    ensures Values(ps) == Values(qs) <==> SameTies(ps, qs)
  {
    hide IsInt;
    hide IntOf;
    hide SameTies;
    hide SameCounts;
    if ps == [] {
      if qs != [] {
        CountsBack(ps, qs);
        FirstIsLeast(qs, ps);
      }
      BothEmpty(ps, qs);
    } else {
      FirstIsLeast(ps, qs);
      CountsBack(ps, qs);
      FirstIsLeast(qs, ps);
      RestCounts(ps, qs);
      RestTies(ps, qs);
      OrderedAgree(ps[1..], qs[1..]);
      assert Values(ps) == [ps[0].1] + Values(ps[1..]) && Values(qs) == [qs[0].1] + Values(qs[1..]);
      assert Values(ps) == Values(qs) ==> Values(ps)[0] == Values(qs)[0] && Values(ps)[1..] == Values(qs)[1..];
    }
  }

  lemma CountsBack<V>(ps: Pairs<V>, qs: Pairs<V>)
    requires AllInts(ps) && AllInts(qs) && SameCounts(ps, qs)
    ensures SameCounts(qs, ps)
  {
  }

  lemma BothEmpty<V>(ps: Pairs<V>, qs: Pairs<V>)
    requires ps == [] && qs == []
    ensures Values(ps) == Values(qs) && SameTies(ps, qs)
  {
  }

  /** Two lists of values are the same if and only if, number by number, their values come in the same
      order. */
  lemma ListsAgree<V>(ps: Pairs<V>, qs: Pairs<V>)
    requires AllInts(ps) && AllInts(qs) && SameCounts(ps, qs)
    ensures Values(SortByInt(ps)) == Values(SortByInt(qs)) <==> SameTies(ps, qs)
  {
    hide IsInt;
    hide IntOf;
    hide TiedValues;
    SortOrders(ps);
    SortOrders(qs);
    forall n ensures TiedValues(SortByInt(ps), n) == TiedValues(ps, n)
             ensures TiedValues(SortByInt(qs), n) == TiedValues(qs, n)
    {
      SortIsStable(ps, n);
      SortIsStable(qs, n);
    }
    OrderedAgree(SortByInt(ps), SortByInt(qs));
  }

  // ---------------------------------------------------------------------------------------------
  // Keys and what they are looked up as
  // ---------------------------------------------------------------------------------------------

  function Keys<V>(ps: Pairs<V>): (keys: seq<string>)
    ensures |keys| == |ps| && forall i | 0 <= i < |ps| :: keys[i] == ps[i].0
  {
    if ps == [] then [] else [ps[0].0] + Keys(ps[1..])
  }

  ghost predicate Different(keys: seq<string>) {
    forall i, j | 0 <= i < j < |keys| :: keys[i] != keys[j]
  }

  ghost predicate All<V>(keys: seq<string>, m: map<string, V>) {
    forall i | 0 <= i < |keys| :: keys[i] in m
  }

  function Lookup<V>(keys: seq<string>, m: map<string, V>): (ps: Pairs<V>)
    requires All(keys, m)
    ensures |ps| == |keys| && forall i | 0 <= i < |ps| :: ps[i] == (keys[i], m[keys[i]])
  {
    seq(|keys|, i requires 0 <= i < |keys| => (keys[i], m[keys[i]]))
  }

  lemma LookedUp<V>(ps: Pairs<V>)
    requires Distinct(ps)
    ensures All(Keys(ps), Contents(ps)) && ps == Lookup(Keys(ps), Contents(ps))
  {
    hide Distinct;
    hide Contents;
    forall i | 0 <= i < |ps| ensures ps[i].0 in Contents(ps) && Contents(ps)[ps[i].0] == ps[i].1 {
      ContentsHas(ps, ps[i].0);
      assert (ps[i].0, ps[i].1) in ps;
    }
  }

  function KeysPut(keys: seq<string>, key: string): seq<string> {
    if key in keys then keys else keys + [key]
  }

  function KeysUpdate(keys: seq<string>, more: seq<string>): seq<string>
    decreases |more|
  {
    if more == [] then keys else KeysUpdate(KeysPut(keys, more[0]), more[1..])
  }

  lemma {:induction false} PutKeysAre<V>(ps: Pairs<V>, key: string, value: V)
    ensures Keys(Put(ps, key, value)) == KeysPut(Keys(ps), key)
  {
    if ps != [] {
      assert Keys(ps) == [ps[0].0] + Keys(ps[1..]);
      if ps[0].0 != key {
        PutKeysAre(ps[1..], key, value);
        assert Put(ps, key, value)[1..] == Put(ps[1..], key, value);
      } else {
        assert Put(ps, key, value)[1..] == ps[1..];
      }
    }
  }

  lemma {:induction false} UpdateKeysAre<V>(ps: Pairs<V>, more: Pairs<V>)
    ensures Keys(Update(ps, more)) == KeysUpdate(Keys(ps), Keys(more))
    decreases |more|
  {
    if more != [] {
      PutKeysAre(ps, more[0].0, more[0].1);
      UpdateKeysAre(Put(ps, more[0].0, more[0].1), more[1..]);
      assert Keys(more)[1..] == Keys(more[1..]);
    }
  }

  lemma {:induction false} KeysUpdateStarts(keys: seq<string>, more: seq<string>)
    ensures keys <= KeysUpdate(keys, more)
    decreases |more|
  {
    if more != [] {
      KeysUpdateStarts(KeysPut(keys, more[0]), more[1..]);
    }
  }

  /** The keys that are added. */
  function Added(keys: seq<string>, more: seq<string>): (added: seq<string>)
    ensures KeysUpdate(keys, more) == keys + added
  {
    KeysUpdateStarts(keys, more);
    KeysUpdate(keys, more)[|keys|..]
  }

  /** Only which keys there are matters for the ones that are added. */
  lemma {:induction false} AddedSame(keys: seq<string>, other: seq<string>, more: seq<string>)
    requires forall k :: k in keys <==> k in other
    ensures Added(keys, more) == Added(other, more)
    decreases |more|
  {
    if more != [] {
      AddedSame(KeysPut(keys, more[0]), KeysPut(other, more[0]), more[1..]);
    }
  }

  lemma {:induction false} GroupsKeys(ps: Pairs<string>, names: seq<string>)
    requires forall n | n in names :: Group(ps, n) != []
    ensures Keys(Groups(ps, names)) == names
    decreases |names|
  {
    hide Group;
    hide Normalise;
    if names != [] {
      GroupsKeys(ps, names[1..]);
      assert Groups(ps, names)[1..] == Groups(ps, names[1..]);
    }
  }

  function PlainKeys(ps: Pairs<string>): seq<string> {
    Keys(WithoutMore(ps))
  }

  /** The entries of a level: the keys without later components in the order of the pairs, then the other
      groups by name. */
  lemma EntriesInOrder(ps: Pairs<string>)
    requires Distinct(ps)
    ensures var keys, m := PlainKeys(ps) + Added(PlainKeys(ps), GroupNames(ps)), Contents(Entries(ps));
            Keys(Entries(ps)) == keys && Distinct(Entries(ps)) && All(keys, m) && Entries(ps) == Lookup(keys, m)
  {
    hide Distinct;
    hide Added;
    EntriesAre(ps);
    UpdateKeysAre(WithoutMore(ps), Groups(ps, GroupNames(ps)));
    GroupsKeys(ps, GroupNames(ps));
    LookedUp(Entries(ps));
  }

  // ---------------------------------------------------------------------------------------------
  // Group names
  // ---------------------------------------------------------------------------------------------

  ghost predicate Rising(names: seq<string>) {
    forall i, j | 0 <= i < j < |names| :: Less(names[i], names[j])
  }

  lemma {:induction false} InsertRises(name: string, names: seq<string>)
    requires Rising(names)
    ensures Rising(InsertName(name, names))
    ensures InsertName(name, names)[0] == if names == [] || Less(name, names[0]) then name else names[0]
  {
    hide Less;
    if names != [] {
      LessTotal(name, names[0]);
      if Less(name, names[0]) {
        forall j | 0 <= j < |names| ensures Less(name, names[j]) {
          if j > 0 {
            LessTransitive(name, names[0], names[j]);
          }
        }
      } else if name != names[0] {
        InsertRises(name, names[1..]);
        var rest := InsertName(name, names[1..]);
        forall j | 0 <= j < |rest| ensures Less(names[0], rest[j]) {
          if j > 0 {
            LessTransitive(names[0], rest[0], rest[j]);
          }
        }
      }
    }
  }

  lemma {:induction false} GroupNamesRise(ps: Pairs<string>)
    ensures Rising(GroupNames(ps))
  {
    hide Rising;
    if ps == [] {
      NoneRise();
    } else {
      GroupNamesRise(ps[1..]);
      InsertRises(FirstComponent(ps[0].0), GroupNames(ps[1..]));
    }
  }

  lemma NoneRise()
    ensures Rising([])
  {
  }

  lemma {:induction false} RisingUnique(names: seq<string>, others: seq<string>)
    requires Rising(names) && Rising(others) && forall n :: n in names <==> n in others
    ensures names == others
  {
    hide Less;
    if names == [] || others == [] {
      FirstIn(names);
      FirstIn(others);
    } else {
      FirstRises(names, others[0]);
      FirstRises(others, names[0]);
      LessIrreflexive(names[0]);
      if names[0] != others[0] {
        LessTransitive(names[0], others[0], names[0]);
      }
      RestRises(names);
      RestRises(others);
      RisingUnique(names[1..], others[1..]);
      assert names == [names[0]] + names[1..] && others == [others[0]] + others[1..];
    }
  }

  lemma FirstIn<T>(s: seq<T>)
    ensures s != [] ==> s[0] in s
  {
  }

  lemma FirstRises(names: seq<string>, name: string)
    requires Rising(names) && names != [] && name in names
    ensures name == names[0] || Less(names[0], name)
  {
    hide Less;
  }

  lemma RestRises(names: seq<string>)
    requires Rising(names) && names != []
    ensures Rising(names[1..]) && forall n :: n in names[1..] <==> n in names && n != names[0]
  {
    hide Less;
    LessIrreflexive(names[0]);
    assert names == [names[0]] + names[1..];
  }

  lemma SameGroupNames(ps: Pairs<string>, qs: Pairs<string>)
    requires forall n :: Group(ps, n) == [] <==> Group(qs, n) == []
    ensures GroupNames(ps) == GroupNames(qs)
  {
    hide Group;
    hide GroupNames;
    forall n ensures n in GroupNames(ps) <==> n in GroupNames(qs) {
      GroupNamesAre(ps, n);
      GroupNamesAre(qs, n);
    }
    GroupNamesRise(ps);
    GroupNamesRise(qs);
    RisingUnique(GroupNames(ps), GroupNames(qs));
  }

  // ---------------------------------------------------------------------------------------------
  // Ties
  // ---------------------------------------------------------------------------------------------

  lemma IntsAppend<V>(ps: Pairs<V>, qs: Pairs<V>)
    requires AllInts(ps) && AllInts(qs)
    ensures AllInts(ps + qs)
  {
  }

  lemma TiedNone<V>(ps: Pairs<V>, n: int)
    requires ps == []
    ensures AllInts(ps) && TiedValues(ps, n) == []
  {
  }

  lemma {:induction false} TiedAppend<V>(ps: Pairs<V>, qs: Pairs<V>, n: int)
    requires AllInts(ps) && AllInts(qs)
    ensures AllInts(ps + qs) && TiedValues(ps + qs, n) == TiedValues(ps, n) + TiedValues(qs, n)
  {
    hide IsInt;
    hide IntOf;
    hide AllInts;
    hide TiedValues;
    IntsAppend(ps, qs);
    if ps == [] {
      assert ps + qs == qs;
      assert TiedValues(ps, n) == [] by {
        TiedNone(ps, n);
      }
    } else {
      TiedRest(ps, n);
      TiedAppend(ps[1..], qs, n);
      assert (ps + qs)[1..] == ps[1..] + qs;
      TiedRest(ps + qs, n);
    }
  }

  /** What the tied values around one pair are. */
  lemma TiedAround<V>(ps: Pairs<V>, p: (string, V), qs: Pairs<V>, n: int)
    requires AllInts(ps) && IsInt(p.0) && AllInts(qs)
    ensures AllInts(ps + [p] + qs)
    ensures TiedValues(ps + [p] + qs, n)
            == TiedValues(ps, n) + (if IntOf(p.0) == n then [p.1] else []) + TiedValues(qs, n)
  {
    hide IsInt;
    hide IntOf;
    TiedAppend(ps, [p], n);
    TiedAppend(ps + [p], qs, n);
    assert TiedValues([p], n) == if IntOf(p.0) == n then [p.1] else [];
  }

  ghost predicate AllAre<V>(values: seq<V>, value: V) {
    forall i | 0 <= i < |values| :: values[i] == value
  }

  /** Pairs with the same number have the same value. */
  ghost predicate TiesAlike<V>(ps: Pairs<V>)
    requires AllInts(ps)
  {
    forall i, j | 0 <= i < |ps| && 0 <= j < |ps| && IntOf(ps[i].0) == IntOf(ps[j].0) :: ps[i].1 == ps[j].1
  }

  lemma {:induction false} TiedAllAre<V>(ps: Pairs<V>, n: int, value: V)
    requires AllInts(ps) && forall i | 0 <= i < |ps| && IntOf(ps[i].0) == n :: ps[i].1 == value
    ensures AllAre(TiedValues(ps, n), value)
  {
    hide IsInt;
    hide IntOf;
    if ps != [] {
      TiedAllAre(ps[1..], n, value);
    }
  }

  /** With the same pairs, each at most once, the counts are the same, and so are ties with one value. */
  lemma {:induction false} TiedPermuted<V(!new)>(ps: Pairs<V>, qs: Pairs<V>, n: int)
    requires AllInts(ps) && AllInts(qs) && Distinct(ps) && Distinct(qs) && SameElements(ps, qs)
    ensures |TiedValues(ps, n)| == |TiedValues(qs, n)|
    decreases |ps|
  {
    hide IsInt;
    hide IntOf;
    hide AllInts;
    hide TiedValues;
    if ps == [] {
      FirstIn(qs);
    } else {
      assert ps[0] in qs;
      var i :| 0 <= i < |qs| && qs[i] == ps[0];
      var a, b := qs[..i], qs[i + 1..];
      assert qs == a + [qs[i]] + b;
      PartsInts(ps, qs, i);
      WithoutOne(ps, qs, i);
      TiedPermuted(ps[1..], a + b, n);
      TiedAround(a, qs[i], b, n);
      TiedAppend(a, b, n);
      TiedRest(ps, n);
    }
  }

  lemma PartsInts<V>(ps: Pairs<V>, qs: Pairs<V>, i: nat)
    requires AllInts(ps) && AllInts(qs) && ps != [] && i < |qs|
    ensures AllInts(ps[1..]) && AllInts(qs[..i]) && AllInts(qs[i + 1..]) && IsInt(qs[i].0) && AllInts(qs[..i] + qs[i + 1..])
  {
  }

  lemma WithoutOne<V(!new)>(ps: Pairs<V>, qs: Pairs<V>, i: nat)
    requires Distinct(ps) && Distinct(qs) && SameElements(ps, qs) && ps != [] && i < |qs| && qs[i] == ps[0]
    ensures var rest := qs[..i] + qs[i + 1..];
            Distinct(ps[1..]) && Distinct(rest) && SameElements(ps[1..], rest)
  {
    var rest := qs[..i] + qs[i + 1..];
    forall j | 0 <= j < |rest| ensures rest[j] == qs[if j < i then j else j + 1] && rest[j] in qs && rest[j] != ps[0] {
    }
    DistinctRest(ps);
    assert ps == [ps[0]] + ps[1..] && qs == qs[..i] + [qs[i]] + qs[i + 1..];
    forall p ensures p in ps[1..] <==> p in ps && p != ps[0] {
      if p in ps[1..] {
        var j :| 0 <= j < |ps[1..]| && ps[1..][j] == p;
        assert ps[1..][j].0 != ps[0].0;
      }
    }
    assert forall p :: p in rest <==> p in qs && p != ps[0];
  }

  lemma AlikePermuted<V(!new)>(ps: Pairs<V>, qs: Pairs<V>, n: int)
    requires AllInts(ps) && AllInts(qs) && Distinct(ps) && Distinct(qs) && SameElements(ps, qs) && TiesAlike(ps)
    ensures TiedValues(ps, n) == TiedValues(qs, n)
  {
    hide IsInt;
    hide IntOf;
    TiedPermuted(ps, qs, n);
    TiedAt(ps, n);
    if TiedValues(ps, n) != [] {
      var i :| 0 <= i < |ps| && IntOf(ps[i].0) == n;
      TiedAllAre(ps, n, ps[i].1);
      forall j | 0 <= j < |qs| && IntOf(qs[j].0) == n ensures qs[j].1 == ps[i].1 {
        assert qs[j] in ps;
        var k :| 0 <= k < |ps| && ps[k] == qs[j];
      }
      TiedAllAre(qs, n, ps[i].1);
    }
  }

  // ---------------------------------------------------------------------------------------------
  // The order of the pairs
  // ---------------------------------------------------------------------------------------------

  ghost predicate PlainKey(ps: Pairs<string>, key: string) {
    LaterComponents(key) == "" && HasKey(ps, key)
  }

  /** If the level becomes a list: any two keys without later components that are the same number have
      the same entry. */
  ghost predicate TiesAgree(ps: Pairs<string>) {
    var es := Entries(ps);
    AllInts(es) ==>
      forall p, q | p in es && q in es && PlainKey(ps, p.0) && PlainKey(ps, q.0) && IntOf(p.0) == IntOf(q.0) ::
        p.1 == q.1
  }

  /** So it is at every level. */
  ghost predicate Settled(ps: Pairs<string>)
    decreases Longest(ps)
  {
    && TiesAgree(ps)
    && forall n | Group(ps, n) != [] :: (GroupShrinks(ps, n); Settled(Group(ps, n)))
  }

  /** The result is the same for the same pairs in any order. */
  ghost predicate OrderFree(ps: Pairs<string>) {
    forall qs | Distinct(qs) && SameElements(ps, qs) :: Normalise(qs) == Normalise(ps)
  }

  lemma SameGroup(ps: Pairs<string>, qs: Pairs<string>, n: string)
    requires Distinct(ps) && Distinct(qs) && SameElements(ps, qs)
    ensures Distinct(Group(ps, n)) && Distinct(Group(qs, n)) && SameElements(Group(ps, n), Group(qs, n))
    ensures Group(ps, n) == [] <==> Group(qs, n) == []
  {
    hide Group;
    hide Under;
    hide Distinct;
    GroupHas(ps, n);
    GroupHas(qs, n);
    forall p ensures p in Group(ps, n) <==> p in Group(qs, n) {
      assert p == (p.0, p.1);
    }
    assert Group(ps, n) != [] ==> Group(ps, n)[0] in Group(ps, n);
    assert Group(qs, n) != [] ==> Group(qs, n)[0] in Group(qs, n);
  }

  lemma PlainKeyIs(ps: Pairs<string>, key: string)
    requires Distinct(ps)
    ensures PlainKey(ps, key) <==> key in PlainKeys(ps)
  {
    hide Distinct;
    WithoutMoreHas(ps);
    var w := WithoutMore(ps);
    if PlainKey(ps, key) {
      var i :| 0 <= i < |ps| && ps[i].0 == key;
      assert (key, ps[i].1) in ps;
      assert (key, Leaf(ps[i].1)) in w;
      var j :| 0 <= j < |w| && w[j] == (key, Leaf(ps[i].1));
      assert PlainKeys(ps)[j] == key;
    }
    if key in PlainKeys(ps) {
      var j :| 0 <= j < |w| && PlainKeys(ps)[j] == key;
      assert (key, w[j].1) in w;
      assert (key, w[j].1.value) in ps;
      var i :| 0 <= i < |ps| && ps[i] == (key, w[j].1.value);
    }
  }

  lemma SamePlainKeys(ps: Pairs<string>, qs: Pairs<string>)
    requires Distinct(ps) && Distinct(qs) && SameElements(ps, qs)
    ensures forall k :: k in PlainKeys(ps) <==> k in PlainKeys(qs)
  {
    hide Distinct;
    hide PlainKeys;
    forall k ensures k in PlainKeys(ps) <==> k in PlainKeys(qs) {
      PlainKeyIs(ps, k);
      PlainKeyIs(qs, k);
      SameHasKey(ps, qs, k);
    }
  }

  lemma SameHasKey<V(!new)>(ps: Pairs<V>, qs: Pairs<V>, key: string)
    requires SameElements(ps, qs)
    ensures HasKey(ps, key) <==> HasKey(qs, key)
  {
    if i :| 0 <= i < |ps| && ps[i].0 == key {
      assert ps[i] in qs;
    }
    if i :| 0 <= i < |qs| && qs[i].0 == key {
      assert qs[i] in ps;
    }
  }

  /** One level has the same entries, if its groups have the same trees. */
  lemma SameEntries(ps: Pairs<string>, qs: Pairs<string>)
    requires Distinct(ps) && Distinct(qs) && SameElements(ps, qs)
    requires forall n | Group(ps, n) != [] :: Normalise(Group(ps, n)) == Normalise(Group(qs, n))
    ensures Contents(Entries(ps)) == Contents(Entries(qs)) && GroupNames(ps) == GroupNames(qs)
  {
    hide Group;
    hide Normalise;
    hide Entries;
    hide Distinct;
    hide SameElements;
    hide GroupNames;
    var m, n := Contents(Entries(ps)), Contents(Entries(qs));
    EntriesAre(ps);
    EntriesAre(qs);
    forall name ensures name in m <==> name in n
                ensures name in m ==> m[name] == n[name]
                ensures Group(ps, name) == [] <==> Group(qs, name) == []
    {
      assert EntryIs(ps, m, name) && EntryIs(qs, n, name);
      SameGroup(ps, qs, name);
      if Group(ps, name) == [] {
        PlainEntries(ps, qs, m, n, name);
      }
    }
    assert m == n;
    SameGroupNames(ps, qs);
  }

  lemma PlainEntries(ps: Pairs<string>, qs: Pairs<string>, m: map<string, Tree>, n: map<string, Tree>, name: string)
    requires Distinct(ps) && SameElements(ps, qs)
    requires EntryIs(ps, m, name) && EntryIs(qs, n, name) && Group(ps, name) == [] && Group(qs, name) == []
    ensures name in m <==> name in n
    ensures name in m ==> m[name] == n[name]
  {
    hide Group;
    if name in m && name in n {
      SameValue(ps, name, m[name].value, n[name].value);
    }
  }

  lemma LookupAppend<V>(keys: seq<string>, more: seq<string>, m: map<string, V>)
    requires All(keys + more, m)
    ensures All(keys, m) && All(more, m) && Lookup(keys + more, m) == Lookup(keys, m) + Lookup(more, m)
  {
    var all := keys + more;
    assert forall i | 0 <= i < |keys| :: all[i] == keys[i];
    assert forall i | 0 <= i < |more| :: all[|keys| + i] == more[i];
  }

  lemma LookupDistinct<V(!new)>(keys: seq<string>, others: seq<string>, m: map<string, V>)
    requires All(keys, m) && All(others, m) && forall k :: k in keys <==> k in others
    ensures SameElements(Lookup(keys, m), Lookup(others, m))
    ensures Different(keys) ==> Distinct(Lookup(keys, m))
  {
    var ps, qs := Lookup(keys, m), Lookup(others, m);
    forall i | 0 <= i < |keys| ensures ps[i] in qs {
      assert keys[i] in others;
      var j :| 0 <= j < |others| && others[j] == keys[i];
      assert qs[j] == ps[i];
    }
    forall j | 0 <= j < |others| ensures qs[j] in ps {
      assert others[j] in keys;
      var i :| 0 <= i < |keys| && keys[i] == others[j];
      assert ps[i] == qs[j];
    }
  }

  lemma IntsApart<V>(ps: Pairs<V>, qs: Pairs<V>)
    requires AllInts(ps + qs)
    ensures AllInts(ps) && AllInts(qs)
  {
    assert forall i | 0 <= i < |ps| :: (ps + qs)[i] == ps[i];
    assert forall i | 0 <= i < |qs| :: (ps + qs)[|ps| + i] == qs[i];
  }

  lemma LevelAgrees<V(!new)>(plain: Pairs<V>, other: Pairs<V>, groups: Pairs<V>)
    requires Distinct(plain) && Distinct(other) && SameElements(plain, other)
    requires AllInts(plain) && AllInts(other) && AllInts(groups) && TiesAlike(plain)
    ensures AllInts(plain + groups) && AllInts(other + groups)
    ensures Values(SortByInt(plain + groups)) == Values(SortByInt(other + groups))
  {
    hide IsInt;
    hide IntOf;
    hide AllInts;
    hide TiedValues;
    IntsAppend(plain, groups);
    IntsAppend(other, groups);
    forall n ensures TiedValues(plain + groups, n) == TiedValues(other + groups, n) {
      TiedAppend(plain, groups, n);
      TiedAppend(other, groups, n);
      AlikePermuted(plain, other, n);
    }
    ListsAgree(plain + groups, other + groups);
  }

  lemma PlainAlike(ps: Pairs<string>, plain: Pairs<Tree>, groups: Pairs<Tree>)
    requires Distinct(ps) && TiesAgree(ps) && Entries(ps) == plain + groups && Keys(plain) == PlainKeys(ps)
    requires AllInts(plain + groups)
    ensures AllInts(plain) && TiesAlike(plain)
  {
    hide IsInt;
    hide IntOf;
    hide PlainKeys;
    hide PlainKey;
    hide Entries;
    IntsApart(plain, groups);
    forall i | 0 <= i < |plain| ensures plain[i] in Entries(ps) && PlainKey(ps, plain[i].0) {
      assert (plain + groups)[i] == plain[i];
      assert Keys(plain)[i] == plain[i].0;
      PlainKeyIs(ps, plain[i].0);
    }
  }

  lemma KeysDiffer<V>(ps: Pairs<V>)
    requires Distinct(ps)
    ensures Different(Keys(ps))
  {
  }

  /** A level without groups whose trees depend on the order, and with ties that agree. */
  lemma LevelOrderFree(ps: Pairs<string>, qs: Pairs<string>)
    requires Distinct(ps) && Distinct(qs) && SameElements(ps, qs) && TiesAgree(ps)
    requires forall n | Group(ps, n) != [] :: Normalise(Group(ps, n)) == Normalise(Group(qs, n))
    ensures Normalise(ps) == Normalise(qs)
  {
    hide Group;
    hide Entries;
    hide Distinct;
    hide SameElements;
    hide GroupNames;
    hide PlainKeys;
    hide TiesAgree;
    hide Added;
    SameEntries(ps, qs);
    SamePlainKeys(ps, qs);
    EntriesInOrder(ps);
    EntriesInOrder(qs);
    var m, names := Contents(Entries(ps)), GroupNames(ps);
    AddedSame(PlainKeys(ps), PlainKeys(qs), names);
    var added := Added(PlainKeys(ps), names);
    LookupAppend(PlainKeys(ps), added, m);
    LookupAppend(PlainKeys(qs), added, m);
    var plain, other, groups := Lookup(PlainKeys(ps), m), Lookup(PlainKeys(qs), m), Lookup(added, m);
    WithoutMoreHas(ps);
    WithoutMoreHas(qs);
    PlainDiffer(ps);
    PlainDiffer(qs);
    LookupDistinct(PlainKeys(ps), PlainKeys(qs), m);
    LookupDistinct(PlainKeys(qs), PlainKeys(ps), m);
    SameIntsAppended(plain, other, groups);
    if AllInts(Entries(ps)) {
      PlainAlike(ps, plain, groups);
      IntsApart(plain, groups);
      IntsApart(other, groups);
      LevelAgrees(plain, other, groups);
    }
  }

  lemma PlainDiffer(ps: Pairs<string>)
    requires Distinct(ps)
    ensures Different(PlainKeys(ps))
  {
    WithoutMoreHas(ps);
    KeysDiffer(WithoutMore(ps));
  }

  lemma SameIntsAppended<V(!new)>(plain: Pairs<V>, other: Pairs<V>, groups: Pairs<V>)
    requires SameElements(plain, other)
    ensures AllInts(plain + groups) <==> AllInts(other + groups)
  {
    hide IsInt;
    SameInts(plain, other);
    if AllInts(plain + groups) {
      IntsApart(plain, groups);
      IntsAppend(other, groups);
    }
    if AllInts(other + groups) {
      IntsApart(other, groups);
      IntsAppend(plain, groups);
    }
  }

  lemma SameInts<V(!new)>(ps: Pairs<V>, qs: Pairs<V>)
    requires SameElements(ps, qs)
    ensures AllInts(ps) <==> AllInts(qs)
  {
    forall i | 0 <= i < |ps| ensures ps[i] in qs {
    }
    forall i | 0 <= i < |qs| ensures qs[i] in ps {
    }
  }

  lemma {:induction false} SettledIsOrderFree(ps: Pairs<string>, qs: Pairs<string>)
    requires Distinct(ps) && Distinct(qs) && SameElements(ps, qs) && Settled(ps)
    ensures Normalise(ps) == Normalise(qs)
    decreases Longest(ps)
  {
    hide Group;
    hide Distinct;
    hide SameElements;
    hide TiesAgree;
    hide Normalise;
    forall n | Group(ps, n) != [] ensures Normalise(Group(ps, n)) == Normalise(Group(qs, n)) {
      SameGroup(ps, qs, n);
      GroupShrinks(ps, n);
      SettledIsOrderFree(Group(ps, n), Group(qs, n));
    }
    LevelOrderFree(ps, qs);
  }

  // ---------------------------------------------------------------------------------------------
  // Where order matters, another order shows it
  // ---------------------------------------------------------------------------------------------

  /** Two values of one number, swapped. */
  lemma SwapDiffers<V(!new)>(a: Pairs<V>, p: (string, V), b: Pairs<V>, q: (string, V), c: Pairs<V>)
    requires AllInts(a) && AllInts(b) && AllInts(c) && IsInt(p.0) && IsInt(q.0)
    requires IntOf(p.0) == IntOf(q.0) && p.1 != q.1
    ensures AllInts(a + [p] + b + [q] + c) && AllInts(a + [q] + b + [p] + c)
    ensures Values(SortByInt(a + [p] + b + [q] + c)) != Values(SortByInt(a + [q] + b + [p] + c))
  {
    hide IsInt;
    hide IntOf;
    hide AllInts;
    hide TiedValues;
    hide SortByInt;
    var ps, qs := a + [p] + b + [q] + c, a + [q] + b + [p] + c;
    forall n ensures AllInts(ps) && AllInts(qs) && |TiedValues(ps, n)| == |TiedValues(qs, n)| {
      TiedSwapped(a, p, b, q, c, n);
      TiedSwapped(a, q, b, p, c, n);
    }
    var n := IntOf(p.0);
    TiedSwapped(a, p, b, q, c, n);
    TiedSwapped(a, q, b, p, c, n);
    assert TiedValues(ps, n)[|TiedValues(a, n)|] == p.1 && TiedValues(qs, n)[|TiedValues(a, n)|] == q.1;
    ListsAgree(ps, qs);
  }

  lemma TiedSwapped<V>(a: Pairs<V>, p: (string, V), b: Pairs<V>, q: (string, V), c: Pairs<V>, n: int)
    requires AllInts(a) && AllInts(b) && AllInts(c) && IsInt(p.0) && IsInt(q.0)
    ensures AllInts(a + [p] + b + [q] + c)
    ensures TiedValues(a + [p] + b + [q] + c, n)
            == TiedValues(a, n) + (if IntOf(p.0) == n then [p.1] else []) + TiedValues(b, n)
               + (if IntOf(q.0) == n then [q.1] else []) + TiedValues(c, n)
  {
    hide IsInt;
    hide IntOf;
    hide AllInts;
    hide TiedValues;
    TiedAround(a, p, b, n);
    TiedAround(a + [p] + b, q, c, n);
  }

  /** One value, changed. */
  lemma ChangeDiffers<V(!new)>(a: Pairs<V>, key: string, v: V, w: V, b: Pairs<V>)
    requires AllInts(a) && AllInts(b) && IsInt(key) && v != w
    ensures AllInts(a + [(key, v)] + b) && AllInts(a + [(key, w)] + b)
    ensures Values(SortByInt(a + [(key, v)] + b)) != Values(SortByInt(a + [(key, w)] + b))
  {
    hide IsInt;
    hide IntOf;
    hide AllInts;
    hide TiedValues;
    hide SortByInt;
    var ps, qs := a + [(key, v)] + b, a + [(key, w)] + b;
    forall n ensures AllInts(ps) && AllInts(qs) && |TiedValues(ps, n)| == |TiedValues(qs, n)| {
      TiedAround(a, (key, v), b, n);
      TiedAround(a, (key, w), b, n);
    }
    var n := IntOf(key);
    TiedAround(a, (key, v), b, n);
    TiedAround(a, (key, w), b, n);
    assert TiedValues(ps, n)[|TiedValues(a, n)|] == v && TiedValues(qs, n)[|TiedValues(a, n)|] == w;
    ListsAgree(ps, qs);
  }

  lemma {:induction false} GroupAppend(ps: Pairs<string>, qs: Pairs<string>, n: string)
    ensures Group(ps + qs, n) == Group(ps, n) + Group(qs, n)
  {
    hide LaterComponents;
    hide FirstComponent;
    if ps == [] {
      assert ps + qs == qs;
    } else {
      GroupAppend(ps[1..], qs, n);
      assert (ps + qs)[1..] == ps[1..] + qs && (ps + qs)[0] == ps[0];
    }
  }

  lemma {:induction false} WithoutMoreAppend(ps: Pairs<string>, qs: Pairs<string>)
    ensures WithoutMore(ps + qs) == WithoutMore(ps) + WithoutMore(qs)
  {
    hide LaterComponents;
    if ps == [] {
      assert ps + qs == qs;
    } else {
      WithoutMoreAppend(ps[1..], qs);
      assert (ps + qs)[1..] == ps[1..] + qs && (ps + qs)[0] == ps[0];
    }
  }

  lemma PlainAppend(ps: Pairs<string>, qs: Pairs<string>)
    ensures PlainKeys(ps + qs) == PlainKeys(ps) + PlainKeys(qs)
  {
    WithoutMoreAppend(ps, qs);
  }

  lemma OnePlain(p: (string, string))
    requires LaterComponents(p.0) == ""
    ensures PlainKeys([p]) == [p.0] && forall n :: Group([p], n) == []
  {
    assert WithoutMore([p]) == [(p.0, Leaf(p.1))];
    assert forall n :: Group([p], n) == Group([p][1..], n);
  }

  lemma PlainSwapped(a: Pairs<string>, p: (string, string), b: Pairs<string>, q: (string, string), c: Pairs<string>)
    requires LaterComponents(p.0) == "" && LaterComponents(q.0) == ""
    ensures PlainKeys(a + [p] + b + [q] + c) == PlainKeys(a) + [p.0] + PlainKeys(b) + [q.0] + PlainKeys(c)
    ensures forall n :: Group(a + [p] + b + [q] + c, n) == Group(a, n) + Group(b, n) + Group(c, n)
  {
    hide PlainKeys;
    hide Group;
    OnePlain(p);
    OnePlain(q);
    PlainAppend(a, [p]);
    PlainAppend(a + [p], b);
    PlainAppend(a + [p] + b, [q]);
    PlainAppend(a + [p] + b + [q], c);
    forall n ensures Group(a + [p] + b + [q] + c, n) == Group(a, n) + Group(b, n) + Group(c, n) {
      GroupAppend(a, [p], n);
      GroupAppend(a + [p], b, n);
      GroupAppend(a + [p] + b, [q], n);
      GroupAppend(a + [p] + b + [q], c, n);
    }
  }

  lemma SwapPermutes<V(!new)>(a: Pairs<V>, p: (string, V), b: Pairs<V>, q: (string, V), c: Pairs<V>)
    requires Distinct(a + [p] + b + [q] + c)
    ensures Distinct(a + [q] + b + [p] + c) && SameElements(a + [p] + b + [q] + c, a + [q] + b + [p] + c)
  {
    var ps, qs := a + [p] + b + [q] + c, a + [q] + b + [p] + c;
    var i, j := |a|, |a| + 1 + |b|;
    forall k | 0 <= k < |ps| ensures qs[k] == ps[if k == i then j else if k == j then i else k] {
    }
  }

  lemma SwapMatters(a: Pairs<string>, p: (string, string), b: Pairs<string>, q: (string, string), c: Pairs<string>)
    requires var ps := a + [p] + b + [q] + c;
             && Distinct(ps) && AllInts(Entries(ps)) && IsInt(p.0) && IsInt(q.0)
             && LaterComponents(p.0) == "" && LaterComponents(q.0) == "" && IntOf(p.0) == IntOf(q.0)
             && p.0 in Contents(Entries(ps)) && q.0 in Contents(Entries(ps))
             && Contents(Entries(ps))[p.0] != Contents(Entries(ps))[q.0]
    ensures Distinct(a + [q] + b + [p] + c) && SameElements(a + [p] + b + [q] + c, a + [q] + b + [p] + c)
    ensures Normalise(a + [p] + b + [q] + c) != Normalise(a + [q] + b + [p] + c)
  {
    hide IsInt;
    hide IntOf;
    hide AllInts;
    hide Distinct;
    hide SameElements;
    hide Entries;
    hide Group;
    hide GroupNames;
    hide PlainKeys;
    hide Added;
    var ps, qs := a + [p] + b + [q] + c, a + [q] + b + [p] + c;
    SwapPermutes(a, p, b, q, c);
    PlainSwapped(a, p, b, q, c);
    PlainSwapped(a, q, b, p, c);
    SameEntries(ps, qs);
    SamePlainKeys(ps, qs);
    EntriesInOrder(ps);
    EntriesInOrder(qs);
    var m, names := Contents(Entries(ps)), GroupNames(ps);
    AddedSame(PlainKeys(ps), PlainKeys(qs), names);
    var end := PlainKeys(c) + Added(PlainKeys(ps), names);
    KeysSwapped(PlainKeys(a), p.0, PlainKeys(b), q.0, PlainKeys(c), Added(PlainKeys(ps), names));
    KeysSwapped(PlainKeys(a), q.0, PlainKeys(b), p.0, PlainKeys(c), Added(PlainKeys(ps), names));
    LevelSwapped(PlainKeys(a), p.0, PlainKeys(b), q.0, end, m);
  }

  lemma KeysSwapped(a: seq<string>, k: string, b: seq<string>, l: string, c: seq<string>, d: seq<string>)
    ensures a + [k] + b + [l] + c + d == a + [k] + b + [l] + (c + d)
  {
  }

  lemma LevelSwapped(a: seq<string>, k: string, b: seq<string>, l: string, c: seq<string>, m: map<string, Tree>)
    requires All(a + [k] + b + [l] + c, m) && All(a + [l] + b + [k] + c, m) && k in m && l in m
    requires IsInt(k) && IsInt(l) && IntOf(k) == IntOf(l) && m[k] != m[l]
    requires AllInts(Lookup(a + [k] + b + [l] + c, m))
    ensures AllInts(Lookup(a + [l] + b + [k] + c, m))
    ensures Values(SortByInt(Lookup(a + [k] + b + [l] + c, m))) != Values(SortByInt(Lookup(a + [l] + b + [k] + c, m)))
  {
    hide IsInt;
    hide IntOf;
    hide AllInts;
    hide SortByInt;
    LookupSwapped(a, k, b, l, c, m);
    LookupSwapped(a, l, b, k, c, m);
    var d, e, f := Lookup(a, m), Lookup(b, m), Lookup(c, m);
    PartsAreInts(d, (k, m[k]), e, (l, m[l]), f);
    SwapDiffers(d, (k, m[k]), e, (l, m[l]), f);
  }

  lemma PartsAreInts<V>(a: Pairs<V>, p: (string, V), b: Pairs<V>, q: (string, V), c: Pairs<V>)
    requires AllInts(a + [p] + b + [q] + c)
    ensures AllInts(a) && AllInts(b) && AllInts(c)
  {
    hide IsInt;
    IntsApart(a + [p] + b + [q], c);
    IntsApart(a + [p] + b, [q]);
    IntsApart(a + [p], b);
    IntsApart(a, [p]);
  }

  lemma LookupSwapped<V>(a: seq<string>, k: string, b: seq<string>, l: string, c: seq<string>, m: map<string, V>)
    requires All(a + [k] + b + [l] + c, m)
    ensures k in m && l in m && All(a, m) && All(b, m) && All(c, m)
    ensures Lookup(a + [k] + b + [l] + c, m) == Lookup(a, m) + [(k, m[k])] + Lookup(b, m) + [(l, m[l])] + Lookup(c, m)
  {
    hide All;
    hide Lookup;
    LookupAppend(a + [k] + b + [l], c, m);
    LookupAppend(a + [k] + b, [l], m);
    LookupAppend(a + [k], b, m);
    LookupAppend(a, [k], m);
    OneLookup(k, m);
    OneLookup(l, m);
  }

  lemma OneLookup<V>(k: string, m: map<string, V>)
    requires All([k], m)
    ensures k in m && Lookup([k], m) == [(k, m[k])]
  {
    assert [k][0] in m;
  }

  /** The pairs outside a group. */
  function Others(ps: Pairs<string>, name: string): Pairs<string> {
    if ps == [] then [] else (if Under(ps[0].0, name) then [] else [ps[0]]) + Others(ps[1..], name)
  }

  function Prefixed(name: string, ps: Pairs<string>): (r: Pairs<string>)
    ensures |r| == |ps| && forall i | 0 <= i < |ps| :: r[i] == (name + "__" + ps[i].0, ps[i].1)
  {
    seq(|ps|, i requires 0 <= i < |ps| => (name + "__" + ps[i].0, ps[i].1))
  }

  lemma {:induction false} OthersAre(ps: Pairs<string>, name: string)
    ensures WithoutMore(Others(ps, name)) == WithoutMore(ps) && Group(Others(ps, name), name) == []
    ensures forall n | n != name :: Group(Others(ps, name), n) == Group(ps, n)
    ensures forall p :: p in Others(ps, name) <==> p in ps && !Under(p.0, name)
  {
    if ps != [] {
      var rest := Others(ps[1..], name);
      OthersAre(ps[1..], name);
      assert ps == [ps[0]] + ps[1..];
      if !Under(ps[0].0, name) {
        assert Others(ps, name) == [ps[0]] + rest && ([ps[0]] + rest)[1..] == rest;
      } else {
        assert Others(ps, name) == rest;
      }
    }
  }

  lemma {:induction false} OthersDistinct(ps: Pairs<string>, name: string)
    requires Distinct(ps)
    ensures Distinct(Others(ps, name))
  {
    hide Under;
    if ps != [] {
      var rest := Others(ps[1..], name);
      OthersDistinct(ps[1..], name);
      OthersAre(ps[1..], name);
      if !Under(ps[0].0, name) {
        DistinctRest(ps);
        forall i | 0 <= i < |rest| ensures rest[i].0 != ps[0].0 {
          assert rest[i] in rest;
        }
        DistinctCons(ps[0], rest);
      } else {
        assert Others(ps, name) == rest;
      }
    }
  }

  ghost predicate Prefixes(name: string, ps: Pairs<string>) {
    forall i | 0 <= i < |ps| ::
      Under(name + "__" + ps[i].0, name) && LaterComponents(name + "__" + ps[i].0) == ps[i].0
  }

  lemma {:induction false} PrefixedAre(name: string, ps: Pairs<string>)
    requires Prefixes(name, ps)
    ensures WithoutMore(Prefixed(name, ps)) == [] && Group(Prefixed(name, ps), name) == ps
    ensures forall n | n != name :: Group(Prefixed(name, ps), n) == []
  {
    if ps != [] {
      PrefixedAre(name, ps[1..]);
      assert Prefixed(name, ps)[1..] == Prefixed(name, ps[1..]);
      assert Under(name + "__" + ps[0].0, name);
    }
  }

  lemma SameAfterPrefix(name: string, a: string, b: string)
    requires name + "__" + a == name + "__" + b
    ensures a == b
  {
    var head := name + "__";
    assert (head + a)[|head|..] == a && (head + b)[|head|..] == b;
  }

  /** The pairs again, those of one group last and in another order. */
  lemma Regrouped(ps: Pairs<string>, name: string, group: Pairs<string>)
    requires Distinct(ps) && Distinct(group) && SameElements(Group(ps, name), group)
    ensures var qs := Others(ps, name) + Prefixed(name, group);
            && Distinct(qs) && SameElements(ps, qs) && WithoutMore(qs) == WithoutMore(ps)
            && Group(qs, name) == group && forall n | n != name :: Group(qs, n) == Group(ps, n)
  {
    hide Distinct;
    hide Under;
    hide Group;
    hide WithoutMore;
    var others, prefixed := Others(ps, name), Prefixed(name, group);
    var qs := others + prefixed;
    GroupHas(ps, name);
    MembersPrefixed(ps, name, group);
    OthersAre(ps, name);
    OthersDistinct(ps, name);
    PrefixedAre(name, group);
    WithoutMoreAppend(others, prefixed);
    forall n ensures Group(qs, n) == Group(others, n) + Group(prefixed, n) {
      GroupAppend(others, prefixed, n);
    }
    DistinctBoth(name, others, prefixed);
    forall p ensures p in ps <==> p in qs {
      assert p in qs <==> p in others || p in prefixed;
    }
  }

  lemma DistinctBoth(name: string, others: Pairs<string>, prefixed: Pairs<string>)
    requires Distinct(others) && Distinct(prefixed)
    requires (forall p | p in others :: !Under(p.0, name)) && forall p | p in prefixed :: Under(p.0, name)
    ensures Distinct(others + prefixed)
  {
    hide Under;
    forall i, j | 0 <= i < |others| && 0 <= j < |prefixed| ensures others[i].0 != prefixed[j].0 {
      assert others[i] in others && prefixed[j] in prefixed;
    }
  }

  lemma MembersPrefixed(ps: Pairs<string>, name: string, group: Pairs<string>)
    requires Distinct(ps) && Distinct(group) && SameElements(Group(ps, name), group)
    ensures Prefixes(name, group) && Distinct(Prefixed(name, group))
    ensures forall p :: p in Prefixed(name, group) <==> p in ps && Under(p.0, name)
  {
    hide Under;
    hide Group;
    GroupHas(ps, name);
    var prefixed := Prefixed(name, group);
    forall i | 0 <= i < |group|
      ensures Under(name + "__" + group[i].0, name) && LaterComponents(name + "__" + group[i].0) == group[i].0
      ensures prefixed[i] in ps
    {
      assert (group[i].0, group[i].1) in Group(ps, name);
    }
    forall i, j | 0 <= i < j < |group| ensures prefixed[i].0 != prefixed[j].0 {
      if prefixed[i].0 == prefixed[j].0 {
        SameAfterPrefix(name, group[i].0, group[j].0);
      }
    }
    forall p | p in ps && Under(p.0, name) ensures p in prefixed {
      UnderIs(p.0, name);
      var later := LaterComponents(p.0);
      assert (name + "__" + later, p.1) in ps;
      assert (later, p.1) in Group(ps, name);
      var i :| 0 <= i < |group| && group[i] == (later, p.1);
      assert prefixed[i] == p;
    }
  }

  lemma UnderIs(key: string, name: string)
    requires Under(key, name)
    ensures key == name + "__" + LaterComponents(key)
  {
    Recomposed(key);
  }

  lemma GroupMatters(ps: Pairs<string>, name: string, group: Pairs<string>) returns (qs: Pairs<string>)
    requires Distinct(ps) && Distinct(group) && SameElements(Group(ps, name), group) && Group(ps, name) != []
    requires Normalise(group) != Normalise(Group(ps, name))
    ensures Distinct(qs) && SameElements(ps, qs) && Normalise(qs) != Normalise(ps)
  {
    hide Distinct;
    hide SameElements;
    hide Group;
    hide Entries;
    hide GroupNames;
    hide AllInts;
    qs := Others(ps, name) + Prefixed(name, group);
    Regrouped(ps, name, group);
    SameGroup(ps, qs, name);
    SameGroupNames(ps, qs);
    EntriesInOrder(ps);
    EntriesInOrder(qs);
    OneEntryDiffers(ps, qs, name);
    var keys, m, n := Keys(Entries(ps)), Contents(Entries(ps)), Contents(Entries(qs));
    assert PlainKeys(qs) == PlainKeys(ps);
    NameIsKey(Entries(ps), name);
    var i :| 0 <= i < |keys| && keys[i] == name;
    KeysDiffer(Entries(ps));
    LevelChanged(keys, i, m, n);
  }

  lemma NameIsKey<V>(ps: Pairs<V>, name: string)
    requires Distinct(ps) && name in Contents(ps)
    ensures name in Keys(ps)
  {
    ContentsHas(ps, name);
    var i :| 0 <= i < |ps| && ps[i] == (name, Contents(ps)[name]);
    assert Keys(ps)[i] == name;
  }

  lemma OfGroup(ps: Pairs<string>, m: map<string, Tree>, name: string)
    requires EntryIs(ps, m, name) && Group(ps, name) != []
    ensures name in m && m[name] == Normalise(Group(ps, name))
  {
  }

  lemma SameEntry(ps: Pairs<string>, qs: Pairs<string>, m: map<string, Tree>, n: map<string, Tree>, name: string)
    requires Distinct(ps) && SameElements(ps, qs) && Group(ps, name) == Group(qs, name)
    requires EntryIs(ps, m, name) && EntryIs(qs, n, name)
    ensures name in m <==> name in n
    ensures name in m ==> m[name] == n[name]
  {
    hide Group;
    hide Normalise;
    hide SameElements;
    hide Distinct;
    if Group(ps, name) == [] {
      PlainEntries(ps, qs, m, n, name);
    }
  }

  lemma OneEntryDiffers(ps: Pairs<string>, qs: Pairs<string>, name: string)
    requires Distinct(ps) && Distinct(qs) && SameElements(ps, qs)
    requires Group(ps, name) != [] && Group(qs, name) != [] && forall n | n != name :: Group(ps, n) == Group(qs, n)
    ensures name in Contents(Entries(ps))
    ensures Contents(Entries(qs)) == Contents(Entries(ps))[name := Normalise(Group(qs, name))]
    ensures Contents(Entries(ps))[name] == Normalise(Group(ps, name))
  {
    hide Group;
    hide Normalise;
    hide Entries;
    hide Distinct;
    hide SameElements;
    hide EntryIs;
    var m, n := Contents(Entries(ps)), Contents(Entries(qs));
    hide Contents;
    EntriesAre(ps);
    EntriesAre(qs);
    assert EntryIs(ps, m, name) && EntryIs(qs, n, name);
    OfGroup(ps, m, name);
    OfGroup(qs, n, name);
    forall other ensures other in m <==> other in n
                 ensures other != name && other in m ==> m[other] == n[other]
    {
      assert EntryIs(ps, m, other) && EntryIs(qs, n, other);
      if other != name {
        SameEntry(ps, qs, m, n, other);
      }
    }
  }

  lemma LookupAround<V>(keys: seq<string>, i: nat, m: map<string, V>)
    requires All(keys, m) && i < |keys|
    ensures All(keys[..i], m) && All(keys[i + 1..], m)
    ensures Lookup(keys, m) == Lookup(keys[..i], m) + [(keys[i], m[keys[i]])] + Lookup(keys[i + 1..], m)
  {
  }

  lemma LookupSame<V>(keys: seq<string>, m: map<string, V>, n: map<string, V>)
    requires All(keys, m) && All(keys, n) && forall i | 0 <= i < |keys| :: m[keys[i]] == n[keys[i]]
    ensures Lookup(keys, m) == Lookup(keys, n)
  {
  }

  /** A level in which one entry is another. */
  lemma LevelChanged(keys: seq<string>, i: nat, m: map<string, Tree>, n: map<string, Tree>)
    requires Different(keys) && All(keys, m) && All(keys, n) && i < |keys| && m[keys[i]] != n[keys[i]]
    requires n == m[keys[i] := n[keys[i]]]
    ensures AllInts(Lookup(keys, m)) <==> AllInts(Lookup(keys, n))
    ensures AllInts(Lookup(keys, m)) ==> Values(SortByInt(Lookup(keys, m))) != Values(SortByInt(Lookup(keys, n)))
  {
    LookupInts(keys, m, n);
    if AllInts(Lookup(keys, m)) {
      hide AllInts;
      hide SortByInt;
      hide Lookup;
      LookupAround(keys, i, m);
      LookupAround(keys, i, n);
      OthersLookup(keys, i, m, n);
      var a, b := Lookup(keys[..i], m), Lookup(keys[i + 1..], m);
      IntsAround(a, (keys[i], m[keys[i]]), b);
      ChangeDiffers(a, keys[i], m[keys[i]], n[keys[i]], b);
    }
  }

  lemma LookupInts(keys: seq<string>, m: map<string, Tree>, n: map<string, Tree>)
    requires All(keys, m) && All(keys, n)
    ensures AllInts(Lookup(keys, m)) <==> AllInts(Lookup(keys, n))
  {
    hide IsInt;
  }

  lemma IntsAround<V>(ps: Pairs<V>, p: (string, V), qs: Pairs<V>)
    requires AllInts(ps + [p] + qs)
    ensures AllInts(ps) && IsInt(p.0) && AllInts(qs)
  {
    hide IsInt;
    IntsApart(ps + [p], qs);
    IntsApart(ps, [p]);
    assert IsInt([p][0].0);
  }

  lemma OthersLookup(keys: seq<string>, i: nat, m: map<string, Tree>, n: map<string, Tree>)
    requires Different(keys) && All(keys, m) && All(keys, n) && i < |keys|
    requires n == m[keys[i] := n[keys[i]]]
    ensures All(keys[..i], m) && All(keys[i + 1..], m) && All(keys[..i], n) && All(keys[i + 1..], n)
    ensures Lookup(keys[..i], m) == Lookup(keys[..i], n) && Lookup(keys[i + 1..], m) == Lookup(keys[i + 1..], n)
  {
    LookupSame(keys[..i], m, n);
    LookupSame(keys[i + 1..], m, n);
  }

  lemma TiesMatter(ps: Pairs<string>) returns (qs: Pairs<string>)
    requires Distinct(ps) && !TiesAgree(ps)
    ensures Distinct(qs) && SameElements(ps, qs) && Normalise(qs) != Normalise(ps)
  {
    hide Entries;
    hide IsInt;
    hide IntOf;
    hide Distinct;
    hide Normalise;
    var es := Entries(ps);
    var p, q :| p in es && q in es && PlainKey(ps, p.0) && PlainKey(ps, q.0) && IntOf(p.0) == IntOf(q.0) && p.1 != q.1;
    EntriesAre(ps);
    ContentsHas(es, p.0);
    ContentsHas(es, q.0);
    assert (p.0, p.1) in es && (q.0, q.1) in es;
    var i :| 0 <= i < |ps| && ps[i].0 == p.0;
    var j :| 0 <= j < |ps| && ps[j].0 == q.0;
    var k, l := if i < j then i else j, if i < j then j else i;
    var a, b, c := ps[..k], ps[k + 1..l], ps[l + 1..];
    Cut(ps, k, l);
    SwapMatters(a, ps[k], b, ps[l], c);
    qs := a + [ps[l]] + b + [ps[k]] + c;
  }

  lemma Cut<T>(s: seq<T>, k: nat, l: nat)
    requires k < l < |s|
    ensures s == s[..k] + [s[k]] + s[k + 1..l] + [s[l]] + s[l + 1..]
  {
  }

  lemma {:induction false} UnsettledMatters(ps: Pairs<string>) returns (qs: Pairs<string>)
    requires Distinct(ps) && !Settled(ps)
    ensures Distinct(qs) && SameElements(ps, qs) && Normalise(qs) != Normalise(ps)
    decreases Longest(ps)
  {
    hide TiesAgree;
    hide Group;
    hide Distinct;
    hide SameElements;
    hide Normalise;
    if !TiesAgree(ps) {
      qs := TiesMatter(ps);
    } else {
      var n :| Group(ps, n) != [] && (GroupShrinks(ps, n); !Settled(Group(ps, n)));
      GroupShrinks(ps, n);
      GroupHas(ps, n);
      var group := UnsettledMatters(Group(ps, n));
      qs := GroupMatters(ps, n, group);
    }
  }

  /** The result is the same for every order of the pairs, if and only if at every level that becomes a
      list, keys without later components that are the same number have the same entry. */
  lemma OrderDoesNotMatter(ps: Pairs<string>)
    requires Distinct(ps)
    ensures OrderFree(ps) <==> Settled(ps)
  {
    hide Settled;
    hide Normalise;
    hide Distinct;
    hide SameElements;
    if Settled(ps) {
      forall qs | Distinct(qs) && SameElements(ps, qs) ensures Normalise(qs) == Normalise(ps) {
        SettledIsOrderFree(ps, qs);
      }
    } else {
      var qs := UnsettledMatters(ps);
    }
  }

  /** Keys that are the same number are put in the order they came in. */
  lemma TiesKeepOrder()
    ensures Normalise([("1", "a"), ("01", "b")]) == List([Leaf("a"), Leaf("b")])
    ensures Normalise([("01", "b"), ("1", "a")]) == List([Leaf("b"), Leaf("a")])
  {
    Tie("1", "a", "01", "b");
    Tie("01", "b", "1", "a");
  }

  lemma Tie(k: string, v: string, l: string, w: string)
    requires k in {"1", "01"} && l in {"1", "01"} && k != l
    ensures Normalise([(k, v), (l, w)]) == List([Leaf(v), Leaf(w)])
  {
    var ps, es := [(k, v), (l, w)], [(k, Leaf(v)), (l, Leaf(w))];
    TieEntries(k, v, l, w);
    TieInts();
    assert es[1..] == [(l, Leaf(w))];
    assert SortByInt(es[1..]) == es[1..];
    assert SortByInt(es) == es;
    assert Values(es) == [Leaf(v), Leaf(w)];
  }

  lemma TieInts()
    ensures IsInt("1") && IsInt("01") && IntOf("1") == IntOf("01")
  {
    assert Strip("1") == "1" && Strip("01") == "01";
    assert Digits("1") && DigitsValue("1") == 1;
    assert "01"[..1] == "0" && Digits("0") && DigitsValue("0") == 0;
    assert Digits("01") && DigitsValue("01") == 1;
  }

  lemma TieEntries(k: string, v: string, l: string, w: string)
    requires k in {"1", "01"} && l in {"1", "01"} && k != l
    ensures Entries([(k, v), (l, w)]) == [(k, Leaf(v)), (l, Leaf(w))]
  {
    var ps := [(k, v), (l, w)];
    assert ps[1..] == [(l, w)];
    assert Sep("1") == 1 && Sep("01") == 2;
    Components(k);
    Components(l);
    assert WithoutMore(ps[1..]) == [(l, Leaf(w))];
    assert WithoutMore(ps) == [(k, Leaf(v)), (l, Leaf(w))];
    assert GroupNames(ps[1..]) == [];
    assert GroupNames(ps) == [];
  }
}
