/** Nested configuration from a flat environment: keys are paths, split at double underscores. */
module EnvironmentTree {
  import opened PythonInt
  import opened Text

  datatype Tree = Leaf(value: string) | Dict(entries: map<string, Tree>) | List(items: seq<Tree>)

  /** A dictionary as Python has it: pairs with distinct keys, in insertion order. */
  type Pairs<V> = seq<(string, V)>

  ghost predicate Distinct<V>(ps: Pairs<V>) {
    forall i, j | 0 <= i < j < |ps| :: ps[i].0 != ps[j].0
  }

  function Contents<V>(ps: Pairs<V>): map<string, V> {
    if ps == [] then map[] else map[ps[0].0 := ps[0].1] + Contents(ps[1..])
  }

  // ---------------------------------------------------------------------------------------------
  // Components of keys
  // ---------------------------------------------------------------------------------------------

  /** Where the first separator is, or the length of the key. */
  function Sep(key: string): (i: nat)
    ensures i <= |key|
    ensures i < |key| ==> i + 2 <= |key| && key[i] == '_' && key[i + 1] == '_'
    ensures forall j | 0 <= j < i && j + 1 < |key| :: !(key[j] == '_' && key[j + 1] == '_')
  {
    if |key| < 2 then |key|
    else if key[0] == '_' && key[1] == '_' then 0
    else 1 + Sep(key[1..])
  }

  function Split(key: string): (parts: seq<string>)
    ensures |parts| > 0
    decreases |key|
  {
    var i := Sep(key);
    if i == |key| then [key] else [key[..i]] + Split(key[i + 2..])
  }

  function Join(parts: seq<string>): string {
    if parts == [] then "" else if |parts| == 1 then parts[0] else parts[0] + "__" + Join(parts[1..])
  }

  function FirstComponent(key: string): string {
    Split(key)[0]
  }

  function LaterComponents(key: string): string {
    Join(Split(key)[1..])
  }

  lemma AroundAt(key: string, i: nat)
    requires i + 2 <= |key| && key[i] == '_' && key[i + 1] == '_'
    ensures key == key[..i] + "__" + key[i + 2..]
  {
    var tail := "__" + key[i + 2..];
    assert key[i..] == tail;
    assert key == key[..i] + key[i..];
    assert key[..i] + "__" + key[i + 2..] == key[..i] + tail;
  }

  lemma AroundSep(key: string)
    requires Sep(key) < |key|
    ensures key == key[..Sep(key)] + "__" + key[Sep(key) + 2..]
  {
    AroundAt(key, Sep(key));
  }

  lemma {:induction false} JoinSplit(key: string)
    ensures Join(Split(key)) == key
    decreases |key|
  {
    hide Sep;
    var i := Sep(key);
    if i < |key| {
      var first, parts := key[..i], Split(key[i + 2..]);
      JoinSplit(key[i + 2..]);
      AroundSep(key);
      assert Split(key) == [first] + parts;
      assert ([first] + parts)[1..] == parts;
    }
  }

  /** The components of a key are what is before and what is after its first separator. */
  lemma Components(key: string)
    ensures FirstComponent(key) == key[..Sep(key)]
    ensures LaterComponents(key) == if Sep(key) == |key| then "" else key[Sep(key) + 2..]
  {
    var i := Sep(key);
    if i < |key| {
      JoinSplit(key[i + 2..]);
      assert Split(key)[1..] == Split(key[i + 2..]);
    }
  }

  /** A key with later components is its components, put back together, and these are shorter. */
  lemma Recomposed(key: string)
    requires LaterComponents(key) != ""
    ensures key == FirstComponent(key) + "__" + LaterComponents(key)
  {
    Components(key);
    AroundSep(key);
  }

  // ---------------------------------------------------------------------------------------------
  // The parser
  // ---------------------------------------------------------------------------------------------

  function WithoutMore(ps: Pairs<string>): Pairs<Tree> {
    if ps == [] then []
    else (if LaterComponents(ps[0].0) == "" then [(ps[0].0, Leaf(ps[0].1))] else []) + WithoutMore(ps[1..])
  }

  /** Insertion into a strictly sorted list. */
  function InsertName(name: string, names: seq<string>): seq<string> {
    if names == [] || Less(name, names[0]) then [name] + names
    else if name == names[0] then names
    else [names[0]] + InsertName(name, names[1..])
  }

  /** The groups by first component, in order. */
  function GroupNames(ps: Pairs<string>): (names: seq<string>)
    ensures forall n | n in names :: Group(ps, n) != []
  {
    if ps == [] then []
    else if LaterComponents(ps[0].0) == "" then GroupNames(ps[1..])
    else
      var names := InsertName(FirstComponent(ps[0].0), GroupNames(ps[1..]));
      assert forall n | n in names :: n == FirstComponent(ps[0].0) || n in GroupNames(ps[1..]) by {
        InsertedNames(FirstComponent(ps[0].0), GroupNames(ps[1..]));
      }
      names
  }

  lemma {:induction false} InsertedNames(name: string, names: seq<string>)
    ensures forall n :: n in InsertName(name, names) <==> n == name || n in names
  {
    if names != [] && !Less(name, names[0]) && name != names[0] {
      InsertedNames(name, names[1..]);
      assert names == [names[0]] + names[1..];
    }
  }

  /** The later components of the keys with a first component. */
  function Group(ps: Pairs<string>, name: string): Pairs<string> {
    if ps == [] then []
    else if LaterComponents(ps[0].0) != "" && FirstComponent(ps[0].0) == name then
      [(LaterComponents(ps[0].0), ps[0].1)] + Group(ps[1..], name)
    else Group(ps[1..], name)
  }

  function Longest(ps: Pairs<string>): (n: nat)
    ensures forall i | 0 <= i < |ps| :: |ps[i].0| <= n
  {
    if ps == [] then 0
    else
      var n := Longest(ps[1..]);
      if |ps[0].0| > n then |ps[0].0| else n
  }

  /** Every key passed down is strictly shorter. */
  lemma {:induction false} GroupShrinks(ps: Pairs<string>, name: string)
    requires Group(ps, name) != []
    ensures Longest(Group(ps, name)) < Longest(ps)
  {
    if LaterComponents(ps[0].0) != "" && FirstComponent(ps[0].0) == name {
      Recomposed(ps[0].0);
      var rest := Group(ps[1..], name);
      assert Group(ps, name)[1..] == rest;
      if rest != [] {
        GroupShrinks(ps[1..], name);
      }
    } else {
      GroupShrinks(ps[1..], name);
    }
  }

  /** Python's dictionary assignment: an existing key keeps its position. */
  function Put<V>(ps: Pairs<V>, key: string, value: V): Pairs<V> {
    if ps == [] then [(key, value)]
    else if ps[0].0 == key then [(key, value)] + ps[1..]
    else [ps[0]] + Put(ps[1..], key, value)
  }

  function Update<V>(ps: Pairs<V>, more: Pairs<V>): Pairs<V>
    decreases |more|
  {
    if more == [] then ps else Update(Put(ps, more[0].0, more[0].1), more[1..])
  }

  predicate AllInts<V>(ps: Pairs<V>) {
    forall i | 0 <= i < |ps| :: IsInt(ps[i].0)
  }

  /** Stable insertion by integer key. */
  function InsertByInt<V>(p: (string, V), ps: Pairs<V>): (r: Pairs<V>)
    requires IsInt(p.0) && AllInts(ps)
    ensures AllInts(r)
  {
    if ps == [] || IntOf(p.0) <= IntOf(ps[0].0) then [p] + ps else [ps[0]] + InsertByInt(p, ps[1..])
  }

  function SortByInt<V>(ps: Pairs<V>): (r: Pairs<V>)
    requires AllInts(ps)
    ensures AllInts(r)
  {
    if ps == [] then [] else InsertByInt(ps[0], SortByInt(ps[1..]))
  }

  function Values<V>(ps: Pairs<V>): seq<V> {
    seq(|ps|, i requires 0 <= i < |ps| => ps[i].1)
  }

  function Normalise(ps: Pairs<string>): Tree
    decreases Longest(ps), 2
  {
    var entries := Entries(ps);
    if AllInts(entries) then List(Values(SortByInt(entries))) else Dict(Contents(entries))
  }

  function Entries(ps: Pairs<string>): Pairs<Tree>
    decreases Longest(ps), 1
  {
    Update(WithoutMore(ps), Groups(ps, GroupNames(ps)))
  }

  function Groups(ps: Pairs<string>, names: seq<string>): Pairs<Tree>
    requires forall n | n in names :: Group(ps, n) != []
    decreases Longest(ps), 0, |names|
  {
    if names == [] then []
    else
      GroupShrinks(ps, names[0]);
      [(names[0], Normalise(Group(ps, names[0])))] + Groups(ps, names[1..])
  }
}
