/** Where the statements of a compiled generator lie, and which try entries see them. */
module GeneratorSites {
  import opened GeneratorContext
  import opened GeneratorMachine
  import opened GeneratorPrograms
  import opened Wrappers

  /** The place of a statement in the compiled program: its first location, its first try entry, the
      targets of the enclosing labels, and the entry whose finally block guards it, if any, with the
      number of labels inside that guarded region. */
  datatype Site = Site(base: nat, lo: nat, env: seq<nat>, guard: int, inside: Option<nat>)

  predicate Within(e: TryEntry, a: nat, b: nat) {
    && a <= e.tryLoc < b
    && (e.catchLoc.Some? || e.finallyLoc.Some?)
    && (e.catchLoc.Some? ==> e.tryLoc < e.catchLoc.value < b)
    && (e.finallyLoc.Some? ==> e.tryLoc < e.finallyLoc.value < b)
    && (e.catchLoc.Some? && e.finallyLoc.Some? ==> e.catchLoc.value < e.finallyLoc.value)
  }

  ghost predicate AllWithin(entries: seq<TryEntry>, a: nat, b: nat) {
    forall i | 0 <= i < |entries| :: Within(entries[i], a, b)
  }

  lemma AllWithinAppend(es: seq<TryEntry>, fs: seq<TryEntry>, a: nat, b: nat, c: nat, d: nat)
    requires AllWithin(es, a, b) && AllWithin(fs, c, d) && a <= c && b <= d
    ensures AllWithin(es + fs, a, d)
  {
  }

  /** Distinct try and finally locations, so that looking one up finds the right entry. */
  ghost predicate Distinct(entries: seq<TryEntry>) {
    forall i, j | 0 <= i < j < |entries| ::
      && entries[i].tryLoc != entries[j].tryLoc
      && (entries[i].finallyLoc.Some? ==> entries[i].finallyLoc != entries[j].finallyLoc)
  }

  lemma DistinctAppend(es: seq<TryEntry>, fs: seq<TryEntry>, a: nat, b: nat, c: nat, d: nat)
    requires AllWithin(es, a, b) && AllWithin(fs, c, d) && b <= c
    requires Distinct(es) && Distinct(fs)
    ensures Distinct(es + fs)
  {
  }

  lemma DistinctCons(e: TryEntry, es: seq<TryEntry>)
    requires Distinct(es)
    requires forall i | 0 <= i < |es| ::
               es[i].tryLoc != e.tryLoc && (e.finallyLoc.Some? ==> es[i].finallyLoc != e.finallyLoc)
    ensures Distinct([e] + es)
  {
  }

  /** Entries lie where their statements do. */
  lemma {:induction false} EntriesWithin(s: Stmt, base: nat, labels: nat)
    requires Scoped(s, labels)
    ensures AllWithin(Entries(s, base), base, base + Size(s))
    decreases s, 1
  {
    match s {
      case Then(first, second) =>
        var mid := base + Size(first);
        EntriesWithin(first, base, labels);
        EntriesWithin(second, mid, labels);
        AllWithinAppend(Entries(first, base), Entries(second, mid), base, mid, mid, base + Size(s));
      case Labelled(body) =>
        EntriesWithin(body, base, labels + 1);
      case Loop(body) =>
        EntriesWithin(body, base + 1, labels + 1);
      case Try(guarded, handler, finalizer) =>
        PartsWithin(s, base, labels);
        AllWithinAppend([Entry(s, base)], PartsEntries(s, base), base, base + Size(s), base + 1, base + Size(s));
      case _ =>
    }
  }

  lemma {:induction false} PartsWithin(s: Stmt, base: nat, labels: nat)
    requires s.Try? && Scoped(s, labels)
    ensures AllWithin(PartsEntries(s, base), base + 1, base + Size(s))
    decreases s, 0, 1
  {
    hide AllWithin;
    var parts, end := Entries(s.guarded, base + 1) + HandlerEntries(s, base), FinallyLoc(s, base);
    BeforeFinallyWithin(s, base, labels);
    if s.finalizer.Some? {
      var top := end + 1 + Size(s.finalizer.value);
      EntriesWithin(s.finalizer.value, end + 1, labels);
      AllWithinAppend(parts, FinalizerEntries(s, base), base + 1, end, end + 1, top);
      Wider(PartsEntries(s, base), base + 1, top, base + Size(s));
    } else {
      assert PartsEntries(s, base) == parts;
    }
  }

  lemma {:induction false} BeforeFinallyWithin(s: Stmt, base: nat, labels: nat)
    requires s.Try? && Scoped(s, labels)
    ensures AllWithin(Entries(s.guarded, base + 1) + HandlerEntries(s, base), base + 1, FinallyLoc(s, base))
    decreases s, 0, 0
  {
    hide AllWithin;
    var parts, end := Entries(s.guarded, base + 1), base + 1 + Size(s.guarded);
    EntriesWithin(s.guarded, base + 1, labels);
    if s.handler.Some? {
      var c := CatchLoc(s, base) + 1;
      EntriesWithin(s.handler.value, c, labels);
      AllWithinAppend(parts, Entries(s.handler.value, c), base + 1, end, c, FinallyLoc(s, base));
    } else {
      assert parts + HandlerEntries(s, base) == parts;
    }
  }

  lemma Wider(entries: seq<TryEntry>, a: nat, b: nat, d: nat)
    requires AllWithin(entries, a, b) && b <= d
    ensures AllWithin(entries, a, d)
  {
  }

  /** No two entries share a location. */
  lemma {:induction false} EntriesDistinct(s: Stmt, base: nat, labels: nat)
    requires Scoped(s, labels)
    ensures Distinct(Entries(s, base))
    decreases s, 1
  {
    match s {
      case Then(first, second) =>
        var mid := base + Size(first);
        EntriesDistinct(first, base, labels);
        EntriesDistinct(second, mid, labels);
        EntriesWithin(first, base, labels);
        EntriesWithin(second, mid, labels);
        DistinctAppend(Entries(first, base), Entries(second, mid), base, mid, mid, base + Size(s));
      case Labelled(body) =>
        EntriesDistinct(body, base, labels + 1);
      case Loop(body) =>
        EntriesDistinct(body, base + 1, labels + 1);
      case Try(guarded, handler, finalizer) =>
        PartsDistinct(s, base, labels);
        PartsWithin(s, base, labels);
        DistinctCons(Entry(s, base), PartsEntries(s, base));
      case _ =>
    }
  }

  lemma {:induction false} PartsDistinct(s: Stmt, base: nat, labels: nat)
    requires s.Try? && Scoped(s, labels)
    ensures Distinct(PartsEntries(s, base))
    ensures s.finalizer.Some? ==> Apart(PartsEntries(s, base), FinallyLoc(s, base))
    decreases s, 0, 1
  {
    hide Distinct;
    hide AllWithin;
    hide Apart;
    var parts, end := Entries(s.guarded, base + 1) + HandlerEntries(s, base), FinallyLoc(s, base);
    BeforeFinallyDistinct(s, base, labels);
    BeforeFinallyWithin(s, base, labels);
    if s.finalizer.Some? {
      var top := end + 1 + Size(s.finalizer.value);
      EntriesDistinct(s.finalizer.value, end + 1, labels);
      EntriesWithin(s.finalizer.value, end + 1, labels);
      DistinctAppend(parts, FinalizerEntries(s, base), base + 1, end, end + 1, top);
      ApartAppend(parts, FinalizerEntries(s, base), base + 1, end, top);
    } else {
      assert PartsEntries(s, base) == parts;
    }
  }

  lemma {:induction false} BeforeFinallyDistinct(s: Stmt, base: nat, labels: nat)
    requires s.Try? && Scoped(s, labels)
    ensures Distinct(Entries(s.guarded, base + 1) + HandlerEntries(s, base))
    decreases s, 0, 0
  {
    hide Distinct;
    hide AllWithin;
    var parts, end := Entries(s.guarded, base + 1), base + 1 + Size(s.guarded);
    EntriesDistinct(s.guarded, base + 1, labels);
    EntriesWithin(s.guarded, base + 1, labels);
    if s.handler.Some? {
      var c := CatchLoc(s, base) + 1;
      EntriesDistinct(s.handler.value, c, labels);
      EntriesWithin(s.handler.value, c, labels);
      DistinctAppend(parts, Entries(s.handler.value, c), base + 1, end, c, FinallyLoc(s, base));
    } else {
      assert parts + HandlerEntries(s, base) == parts;
    }
  }

  ghost predicate Apart(entries: seq<TryEntry>, finallyLoc: nat) {
    forall i | 0 <= i < |entries| :: entries[i].finallyLoc != Some(finallyLoc)
  }

  lemma ApartAppend(es: seq<TryEntry>, fs: seq<TryEntry>, a: nat, finallyLoc: nat, b: nat)
    requires AllWithin(es, a, finallyLoc) && AllWithin(fs, finallyLoc + 1, b)
    ensures Apart(es + fs, finallyLoc)
  {
  }

  // ---------------------------------------------------------------------------------------------
  // Sites
  // ---------------------------------------------------------------------------------------------

  /** Outside the statement's own entries nothing changes from one of its locations to another, and
      entries after them have not started. */
  ghost predicate Still(entries: seq<TryEntry>, a: nat, b: nat, lo: nat, hi: nat) {
    && (forall i, l | 0 <= i < |entries| && !(lo <= i < hi) && a <= l < b ::
          ZoneOf(entries[i], At(l)) == ZoneOf(entries[i], At(a)))
    && (forall i | hi <= i < |entries| :: ZoneOf(entries[i], At(a)) == Outside)
  }

  ghost predicate GuardedBy(entries: seq<TryEntry>, hi: nat, site: Site) {
    && -1 <= site.guard < site.lo <= hi <= |entries|
    && (site.guard >= 0) == site.inside.Some?
    && (forall j | site.guard < j < |entries| && !(site.lo <= j < hi) :: !Guards(entries[j], At(site.base)))
    && (site.guard >= 0 ==>
          && Guards(entries[site.guard], At(site.base))
          && forall k | 0 <= k < |site.env| ::
               k < site.inside.value
               <==> entries[site.guard].tryLoc <= site.env[k] <= entries[site.guard].finallyLoc.value)
  }

  ghost predicate Sound(p: Program) {
    AllWithin(p.entries, 0, |p.code|) && Distinct(p.entries)
  }

  /** `t` is at the site, as far as the code goes. */
  ghost predicate CodeAt(p: Program, t: Stmt, site: Site) {
    && Scoped(t, |site.env|)
    && site.base + Size(t) <= |p.code|
    && p.code[site.base..site.base + Size(t)] == Code(t, site.base, site.env)
  }

  /** `t` is at the site, as far as the entries go. */
  ghost predicate EntriesAt(p: Program, t: Stmt, site: Site) {
    && site.lo + Count(t) <= |p.entries|
    && p.entries[site.lo..site.lo + Count(t)] == Entries(t, site.base)
  }

  /** No target is in the range. */
  ghost predicate Clear(env: seq<nat>, a: nat, b: nat) {
    forall k | 0 <= k < |env| :: env[k] < a || env[k] >= b
  }

  /** The code and the entries of `s` are at the site, and the targets are not. */
  ghost predicate Laid(p: Program, s: Stmt, site: Site) {
    && CodeAt(p, s, site)
    && EntriesAt(p, s, site)
    && Clear(site.env, site.base, site.base + Size(s))
  }

  /** What the rest of the program makes of the locations of the site, up to `b`. */
  ghost predicate Seen(p: Program, b: nat, hi: nat, site: Site) {
    && Sound(p)
    && Still(p.entries, site.base, b, site.lo, hi)
    && GuardedBy(p.entries, hi, site)
  }

  ghost predicate Placed(p: Program, s: Stmt, site: Site) {
    Laid(p, s, site) && Seen(p, site.base + Size(s), site.lo + Count(s), site)
  }

  /** How an exception raised in a statement sees entry `i` once the statement's own entries have let
      it pass. */
  function View(p: Program, base: nat, lo: nat, hi: nat, i: nat): Zone
    requires i < |p.entries|
  {
    if lo <= i < hi then Outside else ZoneOf(p.entries[i], At(base))
  }

  function GuardView(p: Program, base: nat, lo: nat, hi: nat, i: nat): bool
    requires i < |p.entries|
  {
    !(lo <= i < hi) && Guards(p.entries[i], At(base))
  }

  /** As an exception sees it, `prev` is a place of the site. */
  ghost predicate InZone(p: Program, prev: Place, base: nat, lo: nat, hi: nat) {
    forall i | 0 <= i < |p.entries| :: ZoneOf(p.entries[i], prev) == View(p, base, lo, hi, i)
  }

  /** As a return or a jump sees it, `prev` is a place of the site. */
  ghost predicate InGuardZone(p: Program, prev: Place, base: nat, lo: nat, hi: nat) {
    forall i | 0 <= i < |p.entries| :: Guards(p.entries[i], prev) == GuardView(p, base, lo, hi, i)
  }

  lemma ZoneGuards(e: TryEntry, prev: Place, n: nat)
    requires Within(e, 0, n)
    ensures Guards(e, prev) <==> ZoneOf(e, prev) == ToFinally || (ZoneOf(e, prev) == ToCatch && e.finallyLoc.Some?)
  {
  }

  lemma InZoneGuards(p: Program, prev: Place, base: nat, lo: nat, hi: nat)
    requires AllWithin(p.entries, 0, |p.code|) && InZone(p, prev, base, lo, hi)
    ensures InGuardZone(p, prev, base, lo, hi)
  {
    forall i | 0 <= i < |p.entries|
      ensures Guards(p.entries[i], prev) == GuardView(p, base, lo, hi, i)
    {
      ZoneGuards(p.entries[i], prev, |p.code|);
      ZoneGuards(p.entries[i], At(base), |p.code|);
    }
  }

  /** The runtime finds the entry that guards the site. */
  lemma GuardFound(p: Program, s: Stmt, site: Site, c: Ctx)
    requires Placed(p, s, site) && c.entries == p.entries
    requires InGuardZone(p, c.prev, site.base, site.lo, site.lo + Count(s))
    ensures Guard(c) == site.guard
  {
    LastIs(c.entries, Guarding(c.prev), site.guard);
  }

  // ---------------------------------------------------------------------------------------------
  // Sites of parts
  // ---------------------------------------------------------------------------------------------

  lemma StillGuards(entries: seq<TryEntry>, n: nat, a: nat, b: nat, lo: nat, hi: nat, l: nat)
    requires AllWithin(entries, 0, n) && Still(entries, a, b, lo, hi) && a <= l < b
    ensures forall i | 0 <= i < |entries| && !(lo <= i < hi) :: Guards(entries[i], At(l)) == Guards(entries[i], At(a))
  {
    forall i | 0 <= i < |entries| && !(lo <= i < hi) ensures Guards(entries[i], At(l)) == Guards(entries[i], At(a)) {
      ZoneGuards(entries[i], At(l), n);
      ZoneGuards(entries[i], At(a), n);
    }
  }

  /** A part of a site is still if the site's other entries keep out of its way. */
  lemma StillPart(entries: seq<TryEntry>, a: nat, b: nat, lo: nat, hi: nat, a': nat, b': nat, lo': nat, hi': nat)
    requires Still(entries, a, b, lo, hi) && hi <= |entries|
    requires a <= a' < b' <= b && lo <= lo' <= hi' <= hi
    requires forall i | lo <= i < lo' :: forall l | a' <= l < b' ::
               ZoneOf(entries[i], At(l)) == ZoneOf(entries[i], At(a'))
    requires forall i | hi' <= i < hi :: entries[i].tryLoc >= b'
    ensures Still(entries, a', b', lo', hi')
  {
    forall i, l | 0 <= i < |entries| && !(lo' <= i < hi') && a' <= l < b'
      ensures ZoneOf(entries[i], At(l)) == ZoneOf(entries[i], At(a'))
    {
      if !(lo <= i < hi) {
        assert ZoneOf(entries[i], At(l)) == ZoneOf(entries[i], At(a));
        assert ZoneOf(entries[i], At(a')) == ZoneOf(entries[i], At(a));
      }
    }
    forall i | hi' <= i < |entries| ensures ZoneOf(entries[i], At(a')) == Outside {
      if i >= hi {
        assert ZoneOf(entries[i], At(a')) == ZoneOf(entries[i], At(a));
      }
    }
  }

  function SiteOfSecond(s: Stmt, site: Site): Site
    requires s.Then?
  {
    site.(base := site.base + Size(s.first), lo := site.lo + Count(s.first))
  }

  /** A part keeps the guard of the whole if no other entry of the whole guards it more closely. */
  lemma GuardPart(entries: seq<TryEntry>, n: nat, b: nat, hi: nat, site: Site, base: nat, lo: nat, hi': nat)
    requires AllWithin(entries, 0, n) && Still(entries, site.base, b, site.lo, hi) && GuardedBy(entries, hi, site)
    requires site.base <= base < b && site.lo <= lo <= hi' <= hi
    requires forall i | site.lo <= i < hi && !(lo <= i < hi') :: !Guards(entries[i], At(base))
    ensures GuardedBy(entries, hi', site.(base := base, lo := lo))
  {
    StillGuards(entries, n, site.base, b, site.lo, hi, base);
  }

  lemma SeenFirst(p: Program, b: nat, hi: nat, site: Site, mid: nat, m: nat)
    requires Seen(p, b, hi, site) && site.base < mid < b && site.lo <= m <= hi
    requires forall i | m <= i < hi :: Within(p.entries[i], mid, b)
    ensures Seen(p, mid, m, site)
  {
    StillPart(p.entries, site.base, b, site.lo, hi, site.base, mid, site.lo, m);
    GuardPart(p.entries, |p.code|, b, hi, site, site.base, site.lo, m);
    assert site.(base := site.base, lo := site.lo) == site;
  }

  lemma SeenSecond(p: Program, b: nat, hi: nat, site: Site, mid: nat, m: nat)
    requires Seen(p, b, hi, site) && site.base < mid < b && site.lo <= m <= hi
    requires forall i | site.lo <= i < m :: Within(p.entries[i], site.base, mid)
    ensures Seen(p, b, hi, site.(base := mid, lo := m))
  {
    StillPart(p.entries, site.base, b, site.lo, hi, mid, b, m, hi);
    GuardPart(p.entries, |p.code|, b, hi, site, mid, m, hi);
  }

  lemma SliceOfSlice<T>(x: seq<T>, lo: nat, hi: nat, i: nat, j: nat)
    requires lo <= hi <= |x| && i <= j <= hi - lo
    ensures x[lo..hi][i..j] == x[lo + i..lo + j]
  {
    var y := x[lo..hi];
    assert |y[i..j]| == j - i == |x[lo + i..lo + j]|;
    forall k | 0 <= k < j - i ensures y[i..j][k] == x[lo + i..lo + j][k] {
      assert y[i..j][k] == y[i + k] == x[lo + (i + k)];
    }
  }

  lemma TwoParts<T>(x: seq<T>, lo: nat, hi: nat, es: seq<T>, fs: seq<T>)
    requires lo <= hi <= |x| && x[lo..hi] == es + fs
    ensures lo + |es| <= hi && lo + |es| + |fs| == hi
    ensures x[lo..lo + |es|] == es && x[lo + |es|..hi] == fs
  {
    assert |x[lo..hi]| == |es| + |fs|;
    assert x[lo..hi][..|es|] == es && x[lo..hi][|es|..] == fs;
    SliceOfSlice(x, lo, hi, 0, |es|);
    SliceOfSlice(x, lo, hi, |es|, |es| + |fs|);
  }

  lemma ThreeParts<T>(x: seq<T>, lo: nat, hi: nat, es: seq<T>, fs: seq<T>, gs: seq<T>)
    requires lo <= hi <= |x| && x[lo..hi] == es + fs + gs
    ensures lo + |es| + |fs| + |gs| == hi
    ensures x[lo..lo + |es|] == es && x[lo + |es|..lo + |es| + |fs|] == fs && x[lo + |es| + |fs|..hi] == gs
  {
    TwoParts(x, lo, hi, es + fs, gs);
    TwoParts(x, lo, lo + |es| + |fs|, es, fs);
  }

  lemma FourParts<T>(x: seq<T>, lo: nat, hi: nat, es: seq<T>, fs: seq<T>, gs: seq<T>, hs: seq<T>)
    requires lo <= hi <= |x| && x[lo..hi] == es + fs + gs + hs
    ensures lo + |es| + |fs| + |gs| + |hs| == hi
    ensures x[lo..lo + |es|] == es && x[lo + |es|..lo + |es| + |fs|] == fs
    ensures x[lo + |es| + |fs|..lo + |es| + |fs| + |gs|] == gs && x[lo + |es| + |fs| + |gs|..hi] == hs
  {
    TwoParts(x, lo, hi, es + fs + gs, hs);
    ThreeParts(x, lo, lo + |es| + |fs| + |gs|, es, fs, gs);
  }

  lemma SliceWithin(entries: seq<TryEntry>, lo: nat, hi: nat, a: nat, b: nat)
    requires lo <= hi <= |entries| && AllWithin(entries[lo..hi], a, b)
    ensures forall i | lo <= i < hi :: Within(entries[i], a, b)
  {
    forall i | lo <= i < hi ensures Within(entries[i], a, b) {
      assert entries[i] == entries[lo..hi][i - lo];
    }
  }

  /** Sizes and scopes of the two statements of a sequence. */
  lemma ThenOf(s: Stmt, labels: nat)
    requires s.Then? && Scoped(s, labels)
    ensures Scoped(s.first, labels) && Scoped(s.second, labels)
    ensures Size(s) == Size(s.first) + Size(s.second) && Count(s) == Count(s.first) + Count(s.second)
  {
  }

  lemma LaidThen(p: Program, s: Stmt, site: Site)
    requires s.Then? && Laid(p, s, site)
    ensures Laid(p, s.first, site) && Laid(p, s.second, SiteOfSecond(s, site))
  {
    hide Code;
    hide Entries;
    hide Scoped;
    hide Size;
    hide Count;
    ThenOf(s, |site.env|);
    ThenCode(p, s, site);
    ThenEntries(p, s, site);
  }

  lemma ThenCode(p: Program, s: Stmt, site: Site)
    requires s.Then? && CodeAt(p, s, site)
    ensures var a, mid := site.base, site.base + Size(s.first);
            && p.code[a..mid] == Code(s.first, a, site.env)
            && p.code[mid..a + Size(s)] == Code(s.second, mid, site.env)
  {
    var a, mid := site.base, site.base + Size(s.first);
    TwoParts(p.code, a, a + Size(s), Code(s.first, a, site.env), Code(s.second, mid, site.env));
  }

  lemma ThenEntries(p: Program, s: Stmt, site: Site)
    requires s.Then? && EntriesAt(p, s, site)
    ensures var a, lo, m := site.base, site.lo, site.lo + Count(s.first);
            && p.entries[lo..m] == Entries(s.first, a)
            && p.entries[m..lo + Count(s)] == Entries(s.second, a + Size(s.first))
  {
    var a, lo := site.base, site.lo;
    TwoParts(p.entries, lo, lo + Count(s), Entries(s.first, a), Entries(s.second, a + Size(s.first)));
  }

  lemma PlacedThen(p: Program, s: Stmt, site: Site)
    requires s.Then? && Placed(p, s, site)
    ensures Placed(p, s.first, site) && Placed(p, s.second, SiteOfSecond(s, site))
  {
    hide Seen;
    hide Laid;
    var b, hi := site.base + Size(s), site.lo + Count(s);
    var mid, m := site.base + Size(s.first), site.lo + Count(s.first);
    LaidThen(p, s, site);
    LaidWithin(p, s.first, site);
    LaidWithin(p, s.second, SiteOfSecond(s, site));
    SeenFirst(p, b, hi, site, mid, m);
    SeenSecond(p, b, hi, site, mid, m);
  }

  /** The entries of a statement lie within it. */
  lemma LaidWithin(p: Program, s: Stmt, site: Site)
    requires Laid(p, s, site)
    ensures forall i | site.lo <= i < site.lo + Count(s) :: Within(p.entries[i], site.base, site.base + Size(s))
  {
    hide Within;
    hide Scoped;
    EntriesWithin(s, site.base, |site.env|);
    SliceWithin(p.entries, site.lo, site.lo + Count(s), site.base, site.base + Size(s));
  }

  function SiteOfBody(s: Stmt, site: Site): Site
    requires s.Labelled?
  {
    site.(env := [site.base + Size(s.body)] + site.env, inside := Deeper(site.inside))
  }

  lemma PlacedBody(p: Program, s: Stmt, site: Site)
    requires s.Labelled? && Placed(p, s, site)
    ensures Placed(p, s.body, SiteOfBody(s, site))
  {
    hide Still;
    if site.guard >= 0 {
      var e, end := p.entries[site.guard], site.base + Size(s);
      StillGuards(p.entries, |p.code|, site.base, end, site.lo, site.lo + Count(s), end - 1);
      assert Guards(e, At(end - 1));
      var env := SiteOfBody(s, site).env;
      forall k | 0 <= k < |env|
        ensures k < site.inside.value + 1 <==> e.tryLoc <= env[k] <= e.finallyLoc.value
      {
        if k > 0 {
          assert env[k] == site.env[k - 1];
        }
      }
    }
  }

  function SiteOfRound(s: Stmt, site: Site): Site
    requires s.Loop?
  {
    site.(base := site.base + 1, env := [site.base] + site.env, inside := Deeper(site.inside))
  }

  lemma LaidRound(p: Program, s: Stmt, site: Site)
    requires s.Loop? && Laid(p, s, site)
    ensures Laid(p, s.body, SiteOfRound(s, site))
    ensures p.code[site.base] == Test && p.code[site.base + 1 + Size(s.body)] == Goto(site.base)
  {
    var a, end, env := site.base, site.base + 1 + Size(s.body), SiteOfRound(s, site).env;
    ThreeParts(p.code, a, a + Size(s), [Test], Code(s.body, a + 1, env), [Goto(a)]);
    assert p.code[a..a + 1][0] == p.code[a] && p.code[end..end + 1][0] == p.code[end];
    forall k | 0 <= k < |env| ensures env[k] < a + 1 || env[k] >= end {
      assert k > 0 ==> env[k] == site.env[k - 1];
    }
  }

  lemma SeenRound(p: Program, s: Stmt, site: Site)
    requires s.Loop? && Laid(p, s, site) && Seen(p, site.base + Size(s), site.lo + Count(s), site)
    ensures Seen(p, site.base + 1 + Size(s.body), site.lo + Count(s), SiteOfRound(s, site))
  {
    hide Laid;
    var a, hi, round := site.base, site.lo + Count(s), SiteOfRound(s, site);
    StillPart(p.entries, a, a + Size(s), site.lo, hi, a + 1, a + 1 + Size(s.body), site.lo, hi);
    GuardPart(p.entries, |p.code|, a + Size(s), hi, site, a + 1, site.lo, hi);
    if site.guard >= 0 {
      var e := p.entries[site.guard];
      assert Guards(e, At(a));
      forall k | 0 <= k < |round.env|
        ensures k < site.inside.value + 1 <==> e.tryLoc <= round.env[k] <= e.finallyLoc.value
      {
        if k > 0 {
          assert round.env[k] == site.env[k - 1];
        }
      }
    }
  }

  /** A round of a loop has a site of its own. */
  lemma PlacedRound(p: Program, s: Stmt, site: Site)
    requires s.Loop? && Placed(p, s, site)
    ensures Placed(p, s.body, SiteOfRound(s, site))
    ensures p.code[site.base] == Test && p.code[site.base + 1 + Size(s.body)] == Goto(site.base)
  {
    hide Laid;
    hide Seen;
    LaidRound(p, s, site);
    SeenRound(p, s, site);
  }

  // The parts of a try statement. Its own entry has index `site.lo`.

  function SiteOfGuarded(s: Stmt, site: Site): Site
    requires s.Try?
  {
    Site(site.base + 1, site.lo + 1, site.env, if s.finalizer.Some? then site.lo else site.guard,
         Inner(s, site.inside))
  }

  function SiteOfHandler(s: Stmt, site: Site): Site
    requires s.Try? && s.handler.Some?
  {
    SiteOfGuarded(s, site).(base := CatchLoc(s, site.base) + 1, lo := LoOfHandler(s, site.lo))
  }

  function SiteOfFinalizer(s: Stmt, site: Site): Site
    requires s.Try? && s.finalizer.Some?
  {
    site.(base := FinallyLoc(s, site.base) + 1, lo := LoOfFinalizer(s, site.lo))
  }

  function EndOfGuarded(s: Stmt, site: Site): nat
    requires s.Try?
  {
    site.base + 1 + Size(s.guarded)
  }

  lemma CodeOfTry(s: Stmt, a: nat, env: seq<nat>)
    requires s.Try? && Scoped(s, |env|)
    ensures Scoped(s.guarded, |env|)
    ensures Code(s, a, env) == [Mark] + Code(s.guarded, a + 1, env) + HandlerCode(s, a, env) + FinalizerCode(s, a, env)
    ensures a + 1 + Size(s.guarded) + |HandlerCode(s, a, env)| == FinallyLoc(s, a)
    ensures FinallyLoc(s, a) + |FinalizerCode(s, a, env)| == a + Size(s)
  {
  }

  lemma CodeOfParts(code: seq<Instr>, s: Stmt, a: nat, env: seq<nat>)
    requires s.Try? && Scoped(s, |env|)
    requires a + Size(s) <= |code| && code[a..a + Size(s)] == Code(s, a, env)
    ensures code[a] == Mark
    ensures code[a + 1..a + 1 + Size(s.guarded)] == Code(s.guarded, a + 1, env)
    ensures code[a + 1 + Size(s.guarded)..FinallyLoc(s, a)] == HandlerCode(s, a, env)
    ensures code[FinallyLoc(s, a)..a + Size(s)] == FinalizerCode(s, a, env)
  {
    CodeOfTry(s, a, env);
    hide Code;
    hide HandlerCode;
    hide FinalizerCode;
    hide Size;
    hide FinallyLoc;
    FourParts(code, a, a + Size(s), [Mark], Code(s.guarded, a + 1, env), HandlerCode(s, a, env),
              FinalizerCode(s, a, env));
    assert code[a] == code[a..a + 1][0];
  }

  lemma EntriesOfParts(entries: seq<TryEntry>, s: Stmt, a: nat, lo: nat)
    requires s.Try? && lo + Count(s) <= |entries| && entries[lo..lo + Count(s)] == Entries(s, a)
    ensures entries[lo] == Entry(s, a)
    ensures var g := lo + 1 + Count(s.guarded);
            var h := g + (if s.handler.Some? then Count(s.handler.value) else 0);
            && entries[lo + 1..g] == Entries(s.guarded, a + 1)
            && entries[g..h] == HandlerEntries(s, a)
            && entries[h..lo + Count(s)] == FinalizerEntries(s, a)
  {
    var hi := lo + Count(s);
    TwoParts(entries, lo, hi, [Entry(s, a)], PartsEntries(s, a));
    assert entries[lo] == entries[lo..lo + 1][0];
    ThreeParts(entries, lo + 1, hi, Entries(s.guarded, a + 1), HandlerEntries(s, a), FinalizerEntries(s, a));
  }

  lemma CodeOfHandler(code: seq<Instr>, s: Stmt, a: nat, env: seq<nat>)
    requires s.Try? && s.handler.Some? && Scoped(s, |env|)
    requires FinallyLoc(s, a) <= |code|
    requires code[a + 1 + Size(s.guarded)..FinallyLoc(s, a)] == HandlerCode(s, a, env)
    ensures code[a + 1 + Size(s.guarded)] == Goto(FinallyLoc(s, a))
    ensures code[CatchLoc(s, a)] == CatchAt(a)
    ensures code[CatchLoc(s, a) + 1..FinallyLoc(s, a)] == Code(s.handler.value, CatchLoc(s, a) + 1, env)
  {
    var end := a + 1 + Size(s.guarded);
    var jump := [Goto(FinallyLoc(s, a)), CatchAt(a)];
    TwoParts(code, end, FinallyLoc(s, a), jump, Code(s.handler.value, CatchLoc(s, a) + 1, env));
    assert code[end..end + 2][0] == code[end] && code[end..end + 2][1] == code[end + 1];
  }

  lemma CodeOfFinalizer(code: seq<Instr>, s: Stmt, a: nat, env: seq<nat>)
    requires s.Try? && s.finalizer.Some? && Scoped(s, |env|)
    requires a + Size(s) <= |code| && code[FinallyLoc(s, a)..a + Size(s)] == FinalizerCode(s, a, env)
    ensures var f, b := FinallyLoc(s, a), a + Size(s);
            && code[f] == Mark && code[b - 1] == FinishAt(f)
            && code[f + 1..b - 1] == Code(s.finalizer.value, f + 1, env)
  {
    var f, b := FinallyLoc(s, a), a + Size(s);
    ThreeParts(code, f, b, [Mark], Code(s.finalizer.value, f + 1, env), [FinishAt(f)]);
    assert code[f..f + 1][0] == code[f] && code[b - 1..b][0] == code[b - 1];
  }

  lemma LaidGuarded(p: Program, s: Stmt, site: Site)
    requires s.Try? && Laid(p, s, site)
    ensures Laid(p, s.guarded, SiteOfGuarded(s, site))
    ensures p.entries[site.lo] == Entry(s, site.base) && p.code[site.base] == Mark
  {
    hide Code;
    hide HandlerCode;
    hide FinalizerCode;
    hide HandlerEntries;
    hide FinalizerEntries;
    CodeOfParts(p.code, s, site.base, site.env);
    EntriesOfParts(p.entries, s, site.base, site.lo);
  }

  /** Sizes and scopes of the parts. */
  lemma PartsOf(s: Stmt, a: nat, labels: nat)
    requires s.Try? && Scoped(s, labels)
    ensures s.handler.Some? ==>
              && Scoped(s.handler.value, labels)
              && CatchLoc(s, a) == a + 1 + Size(s.guarded) + 1
              && FinallyLoc(s, a) == CatchLoc(s, a) + 1 + Size(s.handler.value) <= a + Size(s)
    ensures s.finalizer.Some? ==>
              Scoped(s.finalizer.value, labels) && a + Size(s) == FinallyLoc(s, a) + 2 + Size(s.finalizer.value)
  {
  }

  lemma HandlerAt(p: Program, s: Stmt, site: Site)
    requires s.Try? && s.handler.Some? && CodeAt(p, s, site)
    ensures CodeAt(p, s.handler.value, SiteOfHandler(s, site))
    ensures p.code[EndOfGuarded(s, site)] == Goto(FinallyLoc(s, site.base))
    ensures p.code[CatchLoc(s, site.base)] == CatchAt(site.base)
  {
    hide Code;
    hide HandlerCode;
    hide FinalizerCode;
    hide Size;
    hide Scoped;
    hide FinallyLoc;
    hide CatchLoc;
    PartsOf(s, site.base, |site.env|);
    CodeOfParts(p.code, s, site.base, site.env);
    CodeOfHandler(p.code, s, site.base, site.env);
  }

  lemma FinalizerAt(p: Program, s: Stmt, site: Site)
    requires s.Try? && s.finalizer.Some? && CodeAt(p, s, site)
    ensures CodeAt(p, s.finalizer.value, SiteOfFinalizer(s, site))
    ensures p.code[FinallyLoc(s, site.base)] == Mark
    ensures p.code[site.base + Size(s) - 1] == FinishAt(FinallyLoc(s, site.base))
  {
    hide Code;
    hide HandlerCode;
    hide FinalizerCode;
    hide Size;
    hide Scoped;
    hide FinallyLoc;
    PartsOf(s, site.base, |site.env|);
    FinalizerSlice(p, s, site);
    var f, end := SiteOfFinalizer(s, site), site.base + Size(s) - 1;
    assert f.base + Size(s.finalizer.value) == end;
  }

  lemma FinalizerPart(code: seq<Instr>, s: Stmt, a: nat, env: seq<nat>)
    requires s.Try? && Scoped(s, |env|)
    requires a + Size(s) <= |code| && code[a..a + Size(s)] == Code(s, a, env)
    ensures FinallyLoc(s, a) <= a + Size(s) && code[FinallyLoc(s, a)..a + Size(s)] == FinalizerCode(s, a, env)
  {
    hide Code;
    hide HandlerCode;
    hide FinalizerCode;
    CodeOfParts(code, s, a, env);
  }

  lemma FinalizerSlice(p: Program, s: Stmt, site: Site)
    requires s.Try? && s.finalizer.Some? && CodeAt(p, s, site)
    ensures var f, end := FinallyLoc(s, site.base), site.base + Size(s) - 1;
            && f < end < |p.code| && p.code[f] == Mark && p.code[end] == FinishAt(f)
            && p.code[f + 1..end] == Code(s.finalizer.value, f + 1, site.env)
  {
    hide Code;
    hide HandlerCode;
    hide FinalizerCode;
    hide Size;
    hide Scoped;
    hide FinallyLoc;
    PartsOf(s, site.base, |site.env|);
    FinalizerPart(p.code, s, site.base, site.env);
    CodeOfFinalizer(p.code, s, site.base, site.env);
  }

  lemma HandlerEntriesAt(p: Program, s: Stmt, site: Site)
    requires s.Try? && s.handler.Some? && EntriesAt(p, s, site)
    ensures EntriesAt(p, s.handler.value, SiteOfHandler(s, site))
  {
    hide Entries;
    hide FinalizerEntries;
    hide Size;
    EntriesOfParts(p.entries, s, site.base, site.lo);
    assert LoOfFinalizer(s, site.lo) == SiteOfHandler(s, site).lo + Count(s.handler.value);
  }

  lemma FinalizerEntriesAt(p: Program, s: Stmt, site: Site)
    requires s.Try? && s.finalizer.Some? && EntriesAt(p, s, site)
    ensures EntriesAt(p, s.finalizer.value, SiteOfFinalizer(s, site))
  {
    hide Entries;
    hide HandlerEntries;
    hide Size;
    EntriesOfParts(p.entries, s, site.base, site.lo);
    assert site.lo + Count(s) == SiteOfFinalizer(s, site).lo + Count(s.finalizer.value);
  }

  lemma LaidHandler(p: Program, s: Stmt, site: Site)
    requires s.Try? && s.handler.Some? && Laid(p, s, site)
    ensures Laid(p, s.handler.value, SiteOfHandler(s, site))
  {
    HandlerAt(p, s, site);
    HandlerEntriesAt(p, s, site);
  }

  lemma LaidFinalizer(p: Program, s: Stmt, site: Site)
    requires s.Try? && s.finalizer.Some? && Laid(p, s, site)
    ensures Laid(p, s.finalizer.value, SiteOfFinalizer(s, site))
  {
    FinalizerAt(p, s, site);
    FinalizerEntriesAt(p, s, site);
  }

  // ---------------------------------------------------------------------------------------------
  // What the rest makes of the parts
  // ---------------------------------------------------------------------------------------------

  /** Where the entries of a try statement lie: its own first, then those of its parts. */
  ghost predicate Spread(entries: seq<TryEntry>, s: Stmt, site: Site)
    requires s.Try?
  {
    var a, g, h, hi := site.base, LoOfHandler(s, site.lo), LoOfFinalizer(s, site.lo), site.lo + Count(s);
    && hi <= |entries|
    && entries[site.lo] == Entry(s, a)
    && (forall i | site.lo < i < g :: Within(entries[i], a + 1, EndOfGuarded(s, site)))
    && (forall i | g <= i < h :: Within(entries[i], CatchLoc(s, a) + 1, FinallyLoc(s, a)))
    && (forall i | h <= i < hi :: Within(entries[i], FinallyLoc(s, a) + 1, a + Size(s)))
  }

  lemma EntriesSpread(p: Program, s: Stmt, site: Site)
    requires s.Try? && Scoped(s, |site.env|) && EntriesAt(p, s, site)
    ensures Spread(p.entries, s, site)
  {
    hide Entries;
    hide HandlerEntries;
    hide FinalizerEntries;
    hide Within;
    hide Scoped;
    hide Size;
    hide FinallyLoc;
    hide CatchLoc;
    EntriesOfParts(p.entries, s, site.base, site.lo);
    SpreadGuarded(p, s, site);
    SpreadHandler(p, s, site);
    SpreadFinalizer(p, s, site);
  }

  lemma SpreadGuarded(p: Program, s: Stmt, site: Site)
    requires s.Try? && Scoped(s, |site.env|) && site.lo + Count(s) <= |p.entries|
    requires p.entries[site.lo + 1..LoOfHandler(s, site.lo)] == Entries(s.guarded, site.base + 1)
    ensures forall i | site.lo < i < LoOfHandler(s, site.lo) ::
              Within(p.entries[i], site.base + 1, EndOfGuarded(s, site))
  {
    hide Within;
    hide Entries;
    PartWithin(p.entries, s.guarded, |site.env|, site.base + 1, site.lo + 1, LoOfHandler(s, site.lo));
  }

  lemma SpreadHandler(p: Program, s: Stmt, site: Site)
    requires s.Try? && Scoped(s, |site.env|) && site.lo + Count(s) <= |p.entries|
    requires p.entries[LoOfHandler(s, site.lo)..LoOfFinalizer(s, site.lo)] == HandlerEntries(s, site.base)
    ensures forall i | LoOfHandler(s, site.lo) <= i < LoOfFinalizer(s, site.lo) ::
              Within(p.entries[i], CatchLoc(s, site.base) + 1, FinallyLoc(s, site.base))
  {
    if s.handler.Some? {
      PartWithin(p.entries, s.handler.value, |site.env|, CatchLoc(s, site.base) + 1,
                 LoOfHandler(s, site.lo), LoOfFinalizer(s, site.lo));
    }
  }

  lemma SpreadFinalizer(p: Program, s: Stmt, site: Site)
    requires s.Try? && Scoped(s, |site.env|) && site.lo + Count(s) <= |p.entries|
    requires p.entries[LoOfFinalizer(s, site.lo)..site.lo + Count(s)] == FinalizerEntries(s, site.base)
    ensures forall i | LoOfFinalizer(s, site.lo) <= i < site.lo + Count(s) ::
              Within(p.entries[i], FinallyLoc(s, site.base) + 1, site.base + Size(s))
  {
    if s.finalizer.Some? {
      PartWithin(p.entries, s.finalizer.value, |site.env|, FinallyLoc(s, site.base) + 1,
                 LoOfFinalizer(s, site.lo), site.lo + Count(s));
    }
  }

  lemma PartWithin(entries: seq<TryEntry>, t: Stmt, labels: nat, a: nat, lo: nat, hi: nat)
    requires Scoped(t, labels) && lo <= hi <= |entries| && entries[lo..hi] == Entries(t, a)
    ensures forall i | lo <= i < hi :: Within(entries[i], a, a + Size(t))
  {
    EntriesWithin(t, a, labels);
    SliceWithin(entries, lo, hi, a, a + Size(t));
  }

  /** How a try statement's own entry sees its parts. */
  lemma OwnZones(s: Stmt, a: nat)
    requires s.Try? && (s.handler.Some? || s.finalizer.Some?)
    ensures var e := Entry(s, a);
            var guarded := if s.handler.Some? then ToCatch else ToFinally;
            var handler := if s.finalizer.Some? then ToFinally else Outside;
            && (forall l | a <= l < a + 1 + Size(s.guarded) :: ZoneOf(e, At(l)) == guarded)
            && (forall l | CatchLoc(s, a) <= l < FinallyLoc(s, a) && s.handler.Some? :: ZoneOf(e, At(l)) == handler)
            && (forall l | FinallyLoc(s, a) <= l :: ZoneOf(e, At(l)) == Outside)
  {
  }

  /** Entries do not see what lies before or after them. */
  lemma FarZones(entries: seq<TryEntry>, i: nat, a: nat, b: nat)
    requires i < |entries| && Within(entries[i], a, b)
    ensures forall l: nat | l < a || l >= b :: ZoneOf(entries[i], At(l)) == Outside && !Guards(entries[i], At(l))
  {
  }

  /** What a part of a try statement has to show in order to be seen like the whole. */
  lemma SeenPart(p: Program, b: nat, hi: nat, site: Site, base: nat, end: nat, lo: nat, hi': nat)
    requires Seen(p, b, hi, site)
    requires site.base <= base < end <= b && site.lo <= lo <= hi' <= hi
    requires forall i | site.lo <= i < lo :: forall l | base <= l < end ::
               ZoneOf(p.entries[i], At(l)) == ZoneOf(p.entries[i], At(base))
    requires forall i | hi' <= i < hi :: p.entries[i].tryLoc >= end
    requires forall i | site.lo <= i < hi && !(lo <= i < hi') :: !Guards(p.entries[i], At(base))
    ensures Seen(p, end, hi', site.(base := base, lo := lo))
  {
    StillPart(p.entries, site.base, b, site.lo, hi, base, end, lo, hi');
    GuardPart(p.entries, |p.code|, b, hi, site, base, lo, hi');
  }

  lemma SeenFinalizer(p: Program, s: Stmt, site: Site)
    requires s.Try? && s.finalizer.Some? && Scoped(s, |site.env|) && Spread(p.entries, s, site)
    requires Seen(p, site.base + Size(s), site.lo + Count(s), site)
    ensures var f := SiteOfFinalizer(s, site);
            Seen(p, f.base + Size(s.finalizer.value), f.lo + Count(s.finalizer.value), f)
  {
    var a, f, hi := site.base, SiteOfFinalizer(s, site), site.lo + Count(s);
    OwnZones(s, a);
    assert f.lo == LoOfFinalizer(s, site.lo);
    forall i | site.lo <= i < f.lo
      ensures forall l | f.base <= l :: ZoneOf(p.entries[i], At(l)) == Outside
      ensures !Guards(p.entries[i], At(f.base))
    {
      if i > site.lo {
        if i < LoOfHandler(s, site.lo) {
          FarZones(p.entries, i, a + 1, EndOfGuarded(s, site));
        } else {
          FarZones(p.entries, i, CatchLoc(s, a) + 1, FinallyLoc(s, a));
        }
      }
    }
    SeenPart(p, a + Size(s), hi, site, f.base, f.base + Size(s.finalizer.value), f.lo, hi);
  }

  lemma StillPartSeen(p: Program, b: nat, hi: nat, site: Site, base: nat, end: nat, lo: nat, hi': nat, guard: int,
                      inside: Option<nat>)
    requires Seen(p, b, hi, site)
    requires site.base <= base < end <= b && site.lo <= lo <= hi' <= hi
    requires forall i | site.lo <= i < lo :: forall l | base <= l < end ::
               ZoneOf(p.entries[i], At(l)) == ZoneOf(p.entries[i], At(base))
    requires forall i | hi' <= i < hi :: p.entries[i].tryLoc >= end
    requires GuardedBy(p.entries, hi', Site(base, lo, site.env, guard, inside))
    ensures Seen(p, end, hi', Site(base, lo, site.env, guard, inside))
  {
    StillPart(p.entries, site.base, b, site.lo, hi, base, end, lo, hi');
  }

  /** The parts before the finally block are guarded by the statement's own entry. */
  lemma GuardedByOwn(p: Program, s: Stmt, site: Site, base: nat, lo: nat, hi': nat)
    requires s.Try? && s.finalizer.Some? && Scoped(s, |site.env|) && Spread(p.entries, s, site)
    requires Seen(p, site.base + Size(s), site.lo + Count(s), site)
    requires Clear(site.env, site.base, site.base + Size(s))
    requires site.base <= base < FinallyLoc(s, site.base) && site.lo < lo <= hi' <= site.lo + Count(s)
    requires forall i | site.lo < i < site.lo + Count(s) && !(lo <= i < hi') :: !Guards(p.entries[i], At(base))
    ensures GuardedBy(p.entries, hi', Site(base, lo, site.env, site.lo, Some(0)))
  {
    var hi := site.lo + Count(s);
    forall j | hi <= j < |p.entries| ensures !Guards(p.entries[j], At(base)) {
      assert ZoneOf(p.entries[j], At(base)) == ZoneOf(p.entries[j], At(site.base));
      ZoneGuards(p.entries[j], At(base), |p.code|);
    }
  }

  lemma SeenGuarded(p: Program, s: Stmt, site: Site)
    requires s.Try? && Scoped(s, |site.env|) && Spread(p.entries, s, site)
    requires Seen(p, site.base + Size(s), site.lo + Count(s), site)
    requires Clear(site.env, site.base, site.base + Size(s))
    ensures Seen(p, EndOfGuarded(s, site), LoOfHandler(s, site.lo), SiteOfGuarded(s, site))
  {
    hide Seen;
    hide Spread;
    if s.finalizer.Some? {
      SeenGuardedByOwn(p, s, site);
    } else {
      SeenGuardedAsWhole(p, s, site);
    }
  }

  lemma SeenGuardedByOwn(p: Program, s: Stmt, site: Site)
    requires s.Try? && s.finalizer.Some? && Scoped(s, |site.env|) && Spread(p.entries, s, site)
    requires Seen(p, site.base + Size(s), site.lo + Count(s), site)
    requires Clear(site.env, site.base, site.base + Size(s))
    ensures Seen(p, EndOfGuarded(s, site), LoOfHandler(s, site.lo), SiteOfGuarded(s, site))
  {
    hide Seen;
    hide Spread;
    hide GuardedBy;
    hide ZoneOf;
    hide Guards;
    var g, end, m := SiteOfGuarded(s, site), EndOfGuarded(s, site), LoOfHandler(s, site.lo);
    AfterGuarded(p, s, site);
    GuardedSeesOwn(p, s, site);
    GuardedByOwn(p, s, site, g.base, g.lo, m);
    StillPartSeen(p, site.base + Size(s), site.lo + Count(s), site, g.base, end, g.lo, m, site.lo, Some(0));
  }

  lemma SeenGuardedAsWhole(p: Program, s: Stmt, site: Site)
    requires s.Try? && s.finalizer.None? && Scoped(s, |site.env|) && Spread(p.entries, s, site)
    requires Seen(p, site.base + Size(s), site.lo + Count(s), site)
    ensures Seen(p, EndOfGuarded(s, site), LoOfHandler(s, site.lo), SiteOfGuarded(s, site))
  {
    hide Seen;
    hide Spread;
    hide GuardedBy;
    hide ZoneOf;
    hide Guards;
    var g, end, m := SiteOfGuarded(s, site), EndOfGuarded(s, site), LoOfHandler(s, site.lo);
    AfterGuarded(p, s, site);
    GuardedSeesOwn(p, s, site);
    SeenPart(p, site.base + Size(s), site.lo + Count(s), site, g.base, end, g.lo, m);
  }

  lemma GuardedSeesOwn(p: Program, s: Stmt, site: Site)
    requires s.Try? && Scoped(s, |site.env|) && Spread(p.entries, s, site)
    ensures forall l | site.base < l < EndOfGuarded(s, site) ::
              ZoneOf(p.entries[site.lo], At(l)) == ZoneOf(p.entries[site.lo], At(site.base + 1))
    ensures s.finalizer.None? ==> !Guards(p.entries[site.lo], At(site.base + 1))
  {
    OwnZones(s, site.base);
  }

  /** The entries after the guarded part have not started there. */
  lemma AfterGuarded(p: Program, s: Stmt, site: Site)
    requires s.Try? && Scoped(s, |site.env|) && Spread(p.entries, s, site)
    ensures forall i | LoOfHandler(s, site.lo) <= i < site.lo + Count(s) ::
              p.entries[i].tryLoc >= EndOfGuarded(s, site) && !Guards(p.entries[i], At(site.base + 1))
  {
    forall i | LoOfHandler(s, site.lo) <= i < site.lo + Count(s)
      ensures p.entries[i].tryLoc >= EndOfGuarded(s, site) && !Guards(p.entries[i], At(site.base + 1))
    {
      if i < LoOfFinalizer(s, site.lo) {
        assert Within(p.entries[i], CatchLoc(s, site.base) + 1, FinallyLoc(s, site.base));
      } else {
        assert Within(p.entries[i], FinallyLoc(s, site.base) + 1, site.base + Size(s));
      }
    }
  }

  lemma SeenHandler(p: Program, s: Stmt, site: Site)
    requires s.Try? && s.handler.Some? && Scoped(s, |site.env|) && Spread(p.entries, s, site)
    requires Seen(p, site.base + Size(s), site.lo + Count(s), site)
    requires Clear(site.env, site.base, site.base + Size(s))
    ensures Seen(p, FinallyLoc(s, site.base), LoOfFinalizer(s, site.lo), SiteOfHandler(s, site))
  {
    hide Seen;
    hide Spread;
    if s.finalizer.Some? {
      SeenHandlerByOwn(p, s, site);
    } else {
      SeenHandlerAsWhole(p, s, site);
    }
  }

  lemma SeenHandlerByOwn(p: Program, s: Stmt, site: Site)
    requires s.Try? && s.handler.Some? && s.finalizer.Some? && Scoped(s, |site.env|) && Spread(p.entries, s, site)
    requires Seen(p, site.base + Size(s), site.lo + Count(s), site)
    requires Clear(site.env, site.base, site.base + Size(s))
    ensures Seen(p, FinallyLoc(s, site.base), LoOfFinalizer(s, site.lo), SiteOfHandler(s, site))
  {
    hide Seen;
    hide Spread;
    hide GuardedBy;
    hide ZoneOf;
    hide Guards;
    var c, end, m := SiteOfHandler(s, site), FinallyLoc(s, site.base), LoOfFinalizer(s, site.lo);
    AroundHandler(p, s, site);
    GuardedByOwn(p, s, site, c.base, c.lo, m);
    StillPartSeen(p, site.base + Size(s), site.lo + Count(s), site, c.base, end, c.lo, m, site.lo, Some(0));
  }

  lemma SeenHandlerAsWhole(p: Program, s: Stmt, site: Site)
    requires s.Try? && s.handler.Some? && s.finalizer.None? && Scoped(s, |site.env|) && Spread(p.entries, s, site)
    requires Seen(p, site.base + Size(s), site.lo + Count(s), site)
    ensures Seen(p, FinallyLoc(s, site.base), LoOfFinalizer(s, site.lo), SiteOfHandler(s, site))
  {
    hide Seen;
    hide Spread;
    hide GuardedBy;
    hide ZoneOf;
    hide Guards;
    var c, end, m := SiteOfHandler(s, site), FinallyLoc(s, site.base), LoOfFinalizer(s, site.lo);
    AroundHandler(p, s, site);
    SeenPart(p, site.base + Size(s), site.lo + Count(s), site, c.base, end, c.lo, m);
  }

  /** What the statement's other entries make of the handler. */
  lemma AroundHandler(p: Program, s: Stmt, site: Site)
    requires s.Try? && s.handler.Some? && Scoped(s, |site.env|) && Spread(p.entries, s, site)
    ensures var c, end := SiteOfHandler(s, site), FinallyLoc(s, site.base);
            && (forall i | site.lo <= i < c.lo :: forall l | c.base <= l < end ::
                  ZoneOf(p.entries[i], At(l)) == ZoneOf(p.entries[i], At(c.base)))
            && (forall i | site.lo < i < c.lo :: !Guards(p.entries[i], At(c.base)))
            && (s.finalizer.None? ==> !Guards(p.entries[site.lo], At(c.base)))
            && (forall i | LoOfFinalizer(s, site.lo) <= i < site.lo + Count(s) ::
                  p.entries[i].tryLoc >= end && !Guards(p.entries[i], At(c.base)))
  {
    var a, c, end := site.base, SiteOfHandler(s, site), FinallyLoc(s, site.base);
    OwnZones(s, a);
    forall i | site.lo < i < c.lo
      ensures forall l | c.base <= l < end :: ZoneOf(p.entries[i], At(l)) == Outside
      ensures !Guards(p.entries[i], At(c.base))
    {
      FarZones(p.entries, i, a + 1, EndOfGuarded(s, site));
    }
    forall i | LoOfFinalizer(s, site.lo) <= i < site.lo + Count(s)
      ensures p.entries[i].tryLoc >= end && !Guards(p.entries[i], At(c.base))
    {
      assert Within(p.entries[i], FinallyLoc(s, a) + 1, a + Size(s));
    }
  }

  /** The parts of a try statement have sites of their own. */
  lemma PlacedParts(p: Program, s: Stmt, site: Site)
    requires s.Try? && Placed(p, s, site)
    ensures Placed(p, s.guarded, SiteOfGuarded(s, site))
    ensures s.handler.Some? ==> Placed(p, s.handler.value, SiteOfHandler(s, site))
    ensures s.finalizer.Some? ==> Placed(p, s.finalizer.value, SiteOfFinalizer(s, site))
    ensures Spread(p.entries, s, site)
  {
    hide Seen;
    hide Spread;
    hide EntriesAt;
    hide Code;
    EntriesSpread(p, s, site);
    LaidGuarded(p, s, site);
    SeenGuarded(p, s, site);
    if s.handler.Some? {
      LaidHandler(p, s, site);
      SeenHandler(p, s, site);
    }
    if s.finalizer.Some? {
      LaidFinalizer(p, s, site);
      SeenFinalizer(p, s, site);
    }
  }

  /** A whole program is placed at its beginning. */
  lemma PlacedWhole(s: Stmt)
    requires Scoped(s, 0)
    ensures Placed(Compile(s), s, Site(0, 0, [], -1, None))
  {
    var p := Compile(s);
    EntriesWithin(s, 0, 0);
    EntriesDistinct(s, 0, 0);
    assert p.code[0..Size(s)] == p.code && p.entries[0..Count(s)] == p.entries;
  }
}
