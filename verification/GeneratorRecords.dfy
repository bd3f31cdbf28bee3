/** What the entries of try statements hold, in the runtime's semantics and in the context. */
module GeneratorRecords {
  import opened GeneratorContext
  import opened GeneratorMachine
  import opened GeneratorPrograms
  import opened GeneratorSites
  import opened Wrappers

  // ---------------------------------------------------------------------------------------------
  // A statement changes its own entries only
  // ---------------------------------------------------------------------------------------------

  ghost predicate SameOutside(h: Hidden, h': Hidden, lo: nat, hi: nat) {
    forall i: nat | !(lo <= i < hi) :: h.Record(i) == h'.Record(i)
  }

  lemma SameOutsideBoth(h: Hidden, h1: Hidden, h2: Hidden, lo: nat, mid: nat, lo': nat, hi: nat)
    requires SameOutside(h, h1, lo, mid) && SameOutside(h1, h2, lo', hi) && lo <= lo' && mid <= hi
    ensures SameOutside(h, h2, lo, hi)
  {
  }

  lemma {:induction false} KeepsOthers(s: Stmt, lo: nat, inside: Option<nat>, h: Hidden, inputs: seq<Resume>)
    ensures SameOutside(h, Runs(s, lo, inside, h, inputs).h, lo, lo + Count(s))
    decreases |inputs|, s, 1
  {
    match s {
      case Then(_, _) => KeepsOthersThen(s, lo, inside, h, inputs);
      case Labelled(body) => KeepsOthers(body, lo, Deeper(inside), h, inputs);
      case Loop(_) => KeepsOthersLoop(s, lo, inside, h, inputs);
      case Try(_, _, _) => KeepsOthersTry(s, lo, inside, h, inputs);
      case _ => SameRecords(h, Runs(s, lo, inside, h, inputs).h, lo);
    }
  }

  lemma {:induction false} KeepsOthersThen(s: Stmt, lo: nat, inside: Option<nat>, h: Hidden, inputs: seq<Resume>)
    requires s.Then?
    ensures SameOutside(h, Runs(s, lo, inside, h, inputs).h, lo, lo + Count(s))
    decreases |inputs|, s, 0
  {
    hide SameOutside;
    hide Runs;
    RunsOfThen(s, lo, inside, h, inputs);
    var mid, hi := lo + Count(s.first), lo + Count(s);
    var r := Runs(s.first, lo, inside, h, inputs);
    var r2 := Runs(s.second, mid, inside, r.h, r.inputs);
    KeepsOthers(s.first, lo, inside, h, inputs);
    KeepsOthers(s.second, mid, inside, r.h, r.inputs);
    SameOutsideWider(h, r.h, lo, mid, lo, hi);
    SameOutsideBoth(h, r.h, r2.h, lo, mid, mid, hi);
  }

  lemma {:induction false} KeepsOthersLoop(s: Stmt, lo: nat, inside: Option<nat>, h: Hidden, inputs: seq<Resume>)
    requires s.Loop?
    ensures SameOutside(h, Runs(s, lo, inside, h, inputs).h, lo, lo + Count(s))
    decreases |inputs|, s, 0
  {
    hide SameOutside;
    hide Runs;
    RunsOfLoop(s, lo, inside, h, inputs);
    KeepsOthers(s.body, lo, Deeper(inside), h, inputs);
    var r := Runs(s.body, lo, Deeper(inside), h, inputs);
    if |r.inputs| < |inputs| {
      KeepsOthers(s, lo, inside, r.h, r.inputs);
      SameOutsideBoth(h, r.h, Runs(s, lo, inside, r.h, r.inputs).h, lo, lo + Count(s), lo, lo + Count(s));
    }
  }

  lemma {:induction false} KeepsOthersTry(s: Stmt, lo: nat, inside: Option<nat>, h: Hidden, inputs: seq<Resume>)
    requires s.Try?
    ensures SameOutside(h, Runs(s, lo, inside, h, inputs).h, lo, lo + Count(s))
    decreases |inputs|, s, 0, 1
  {
    hide SameOutside;
    hide Runs;
    hide RunsGuarded;
    var c, end, hi := RunsGuarded(s, lo, inside, h, inputs), LoOfFinalizer(s, lo), lo + Count(s);
    RunsOfTry(s, lo, inside, h, inputs);
    KeepsOthersGuarded(s, lo, inside, h, inputs);
    SameOutsideWider(h, c.h, lo, end, lo, hi);
    if s.finalizer.Some? && Stops(c.comp) {
      var h1 := OnFinally(c, lo);
      var f := Runs(s.finalizer.value, end, inside, h1, c.inputs);
      KeepsOthers(s.finalizer.value, end, inside, h1, c.inputs);
      OwnOutside(c, f, lo);
      SameOutsideBoth(h, c.h, h1, lo, end, lo, hi);
      SameOutsideBoth(h, h1, f.h, lo, hi, end, hi);
      SameOutsideBoth(h, f.h, WithFinally(c, f, lo).h, lo, hi, lo, hi);
    }
  }

  lemma SameRecords(h: Hidden, h': Hidden, lo: nat)
    requires h'.records == h.records
    ensures SameOutside(h, h', lo, lo)
  {
  }

  lemma SameOutsideWider(h: Hidden, h': Hidden, lo: nat, hi: nat, lo': nat, hi': nat)
    requires lo' <= lo && hi <= hi'
    ensures SameOutside(h, h', lo, hi) ==> SameOutside(h, h', lo', hi')
  {
  }

  /** On the way into and out of a finally block, only the statement's own entry changes. */
  lemma OwnOutside(c: Result, f: Result, lo: nat)
    ensures forall hi | hi > lo :: SameOutside(c.h, OnFinally(c, lo), lo, hi)
    ensures forall hi | hi > lo :: SameOutside(f.h, WithFinally(c, f, lo).h, lo, hi)
    ensures forall hi | hi > lo :: SameOutside(c.h, OnHandler(c, lo), lo, hi)
  {
  }

  lemma {:induction false} KeepsOthersGuarded(s: Stmt, lo: nat, inside: Option<nat>, h: Hidden, inputs: seq<Resume>)
    requires s.Try?
    ensures SameOutside(h, RunsGuarded(s, lo, inside, h, inputs).h, lo, LoOfFinalizer(s, lo))
    decreases |inputs|, s, 0, 0
  {
    hide SameOutside;
    hide Runs;
    RunsOfGuarded(s, lo, inside, h, inputs);
    var g, end := Runs(s.guarded, lo + 1, Inner(s, inside), h, inputs), LoOfFinalizer(s, lo);
    KeepsOthers(s.guarded, lo + 1, Inner(s, inside), h, inputs);
    SameOutsideWider(h, g.h, lo + 1, LoOfHandler(s, lo), lo, end);
    if g.comp.Throwing? && s.handler.Some? {
      var h1 := OnHandler(g, lo);
      KeepsOthers(s.handler.value, LoOfHandler(s, lo), Inner(s, inside), h1, g.inputs);
      OwnOutside(g, g, lo);
      SameOutsideBoth(h, g.h, h1, lo, end, lo, end);
      SameOutsideBoth(h, h1, Runs(s.handler.value, LoOfHandler(s, lo), Inner(s, inside), h1, g.inputs).h, lo, end,
                      LoOfHandler(s, lo), end);
    }
  }

  // ---------------------------------------------------------------------------------------------
  // The context's records
  // ---------------------------------------------------------------------------------------------

  ghost predicate HasTarget(comp: Comp, env: seq<nat>) {
    comp.Jumping? ==> comp.k < |env|
  }

  /** What the entry of a try statement holds. */
  function Saved(comp: Comp, env: seq<nat>): Completion
    requires HasTarget(comp, env)
  {
    match comp
    case Throwing(v) => Throw(v)
    case Returning(v) => Return(v)
    case Jumping(k, _) => Break(env[k])
    case _ => Normal
  }

  ghost predicate HoldsAt(cs: seq<Completion>, i: nat, env: seq<nat>, h: Hidden) {
    HasTarget(h.Record(i), env) && i < |cs| && cs[i] == Saved(h.Record(i), env)
  }

  /** The entries of `s` hold what the hidden state says. */
  ghost predicate Holds(cs: seq<Completion>, s: Stmt, site: Site, h: Hidden) {
    match s
    case Then(first, second) => Holds(cs, first, site, h) && Holds(cs, second, SiteOfSecond(s, site), h)
    case Labelled(body) => Holds(cs, body, SiteOfBody(s, site), h)
    case Loop(body) => Holds(cs, body, SiteOfRound(s, site), h)
    case Try(guarded, handler, finalizer) =>
      && HoldsAt(cs, site.lo, site.env, h)
      && Holds(cs, guarded, SiteOfGuarded(s, site), h)
      && (handler.Some? ==> Holds(cs, handler.value, SiteOfHandler(s, site), h))
      && (finalizer.Some? ==> Holds(cs, finalizer.value, SiteOfFinalizer(s, site), h))
    case _ => true
  }

  ghost predicate Untouched(cs: seq<Completion>, cs': seq<Completion>, lo: nat, hi: nat) {
    |cs| == |cs'| && forall i | 0 <= i < |cs| && !(lo <= i < hi) :: cs[i] == cs'[i]
  }

  /** Nothing happens to the entries of a statement that others change theirs. */
  lemma {:induction false} HoldsStill(cs: seq<Completion>, cs': seq<Completion>, s: Stmt, site: Site, h: Hidden,
                                      h': Hidden, lo: nat, hi: nat)
    requires Holds(cs, s, site, h) && Untouched(cs, cs', lo, hi) && SameOutside(h, h', lo, hi)
    requires site.lo + Count(s) <= lo || hi <= site.lo
    ensures Holds(cs', s, site, h')
    decreases s
  {
    hide Saved;
    match s {
      case Then(first, second) =>
        HoldsStill(cs, cs', first, site, h, h', lo, hi);
        HoldsStill(cs, cs', second, SiteOfSecond(s, site), h, h', lo, hi);
      case Labelled(body) =>
        HoldsStill(cs, cs', body, SiteOfBody(s, site), h, h', lo, hi);
      case Loop(body) =>
        HoldsStill(cs, cs', body, SiteOfRound(s, site), h, h', lo, hi);
      case Try(guarded, handler, finalizer) =>
        HoldsStill(cs, cs', guarded, SiteOfGuarded(s, site), h, h', lo, hi);
        if handler.Some? {
          HoldsStill(cs, cs', handler.value, SiteOfHandler(s, site), h, h', lo, hi);
        }
        if finalizer.Some? {
          HoldsStill(cs, cs', finalizer.value, SiteOfFinalizer(s, site), h, h', lo, hi);
        }
      case _ =>
    }
  }

  /** Part of a statement has run: its entries hold what the new state says, and so do those of the
      whole. */
  lemma HoldsAfterThen(cs: seq<Completion>, cs': seq<Completion>, s: Stmt, site: Site, h: Hidden, h': Hidden, later: bool)
    requires s.Then? && Holds(cs, s, site, h)
    requires var lo, hi := if later then site.lo + Count(s.first) else site.lo,
                           if later then site.lo + Count(s) else site.lo + Count(s.first);
             Untouched(cs, cs', lo, hi) && SameOutside(h, h', lo, hi)
    requires if later then Holds(cs', s.second, SiteOfSecond(s, site), h') else Holds(cs', s.first, site, h')
    ensures Holds(cs', s, site, h')
  {
    hide Untouched;
    hide SameOutside;
    if later {
      HoldsStill(cs, cs', s.first, site, h, h', site.lo + Count(s.first), site.lo + Count(s));
    } else {
      HoldsStill(cs, cs', s.second, SiteOfSecond(s, site), h, h', site.lo, site.lo + Count(s.first));
    }
  }

  lemma HoldsAfterGuarded(cs: seq<Completion>, cs': seq<Completion>, s: Stmt, site: Site, h: Hidden, h': Hidden)
    requires s.Try? && Holds(cs, s, site, h) && Holds(cs', s.guarded, SiteOfGuarded(s, site), h')
    requires Untouched(cs, cs', site.lo + 1, LoOfHandler(s, site.lo))
    requires SameOutside(h, h', site.lo + 1, LoOfHandler(s, site.lo))
    ensures Holds(cs', s, site, h')
  {
    var lo, hi := site.lo + 1, LoOfHandler(s, site.lo);
    if s.handler.Some? {
      HoldsStill(cs, cs', s.handler.value, SiteOfHandler(s, site), h, h', lo, hi);
    }
    if s.finalizer.Some? {
      HoldsStill(cs, cs', s.finalizer.value, SiteOfFinalizer(s, site), h, h', lo, hi);
    }
  }

  lemma HoldsAfterHandler(cs: seq<Completion>, cs': seq<Completion>, s: Stmt, site: Site, h: Hidden, h': Hidden)
    requires s.Try? && s.handler.Some?
    requires Holds(cs, s, site, h) && Holds(cs', s.handler.value, SiteOfHandler(s, site), h')
    requires Untouched(cs, cs', LoOfHandler(s, site.lo), LoOfFinalizer(s, site.lo))
    requires SameOutside(h, h', LoOfHandler(s, site.lo), LoOfFinalizer(s, site.lo))
    ensures Holds(cs', s, site, h')
  {
    var lo, hi := LoOfHandler(s, site.lo), LoOfFinalizer(s, site.lo);
    HoldsStill(cs, cs', s.guarded, SiteOfGuarded(s, site), h, h', lo, hi);
    if s.finalizer.Some? {
      HoldsStill(cs, cs', s.finalizer.value, SiteOfFinalizer(s, site), h, h', lo, hi);
    }
  }

  lemma HoldsAfterFinalizer(cs: seq<Completion>, cs': seq<Completion>, s: Stmt, site: Site, h: Hidden, h': Hidden)
    requires s.Try? && s.finalizer.Some?
    requires Holds(cs, s, site, h) && Holds(cs', s.finalizer.value, SiteOfFinalizer(s, site), h')
    requires Untouched(cs, cs', LoOfFinalizer(s, site.lo), site.lo + Count(s))
    requires SameOutside(h, h', LoOfFinalizer(s, site.lo), site.lo + Count(s))
    ensures Holds(cs', s, site, h')
  {
    var lo, hi := LoOfFinalizer(s, site.lo), site.lo + Count(s);
    HoldsStill(cs, cs', s.guarded, SiteOfGuarded(s, site), h, h', lo, hi);
    if s.handler.Some? {
      HoldsStill(cs, cs', s.handler.value, SiteOfHandler(s, site), h, h', lo, hi);
    }
  }

  /** The statement's own entry takes a completion. */
  lemma HoldsKept(cs: seq<Completion>, s: Stmt, site: Site, h: Hidden, comp: Comp)
    requires s.Try? && Holds(cs, s, site, h) && HasTarget(comp, site.env)
    ensures site.lo < |cs| && Holds(cs[site.lo := Saved(comp, site.env)], s, site, h.Keep(site.lo, comp))
  {
    var cs', h', lo := cs[site.lo := Saved(comp, site.env)], h.Keep(site.lo, comp), site.lo;
    HoldsStill(cs, cs', s.guarded, SiteOfGuarded(s, site), h, h', lo, lo + 1);
    if s.handler.Some? {
      HoldsStill(cs, cs', s.handler.value, SiteOfHandler(s, site), h, h', lo, lo + 1);
    }
    if s.finalizer.Some? {
      HoldsStill(cs, cs', s.finalizer.value, SiteOfFinalizer(s, site), h, h', lo, lo + 1);
    }
  }

  lemma HoldsAlike(cs: seq<Completion>, s: Stmt, site: Site, h: Hidden, h': Hidden)
    requires Holds(cs, s, site, h) && h'.records == h.records
    ensures Holds(cs, s, site, h')
  {
    var end := site.lo + Count(s);
    SameRecords(h, h', end);
    HoldsStill(cs, cs, s, site, h, h', end, end);
  }

  /** A new context holds nothing. */
  lemma {:induction false} HoldsNothing(cs: seq<Completion>, s: Stmt, site: Site, h: Hidden)
    requires site.lo + Count(s) <= |cs| && h.records == map[]
    requires forall i | site.lo <= i < site.lo + Count(s) :: cs[i] == Normal
    ensures Holds(cs, s, site, h)
    decreases s
  {
    match s {
      case Then(first, second) =>
        HoldsNothing(cs, first, site, h);
        HoldsNothing(cs, second, SiteOfSecond(s, site), h);
      case Labelled(body) =>
        HoldsNothing(cs, body, SiteOfBody(s, site), h);
      case Loop(body) =>
        HoldsNothing(cs, body, SiteOfRound(s, site), h);
      case Try(guarded, handler, finalizer) =>
        HoldsNothing(cs, guarded, SiteOfGuarded(s, site), h);
        if handler.Some? {
          HoldsNothing(cs, handler.value, SiteOfHandler(s, site), h);
        }
        if finalizer.Some? {
          HoldsNothing(cs, finalizer.value, SiteOfFinalizer(s, site), h);
        }
      case _ =>
    }
  }
}
