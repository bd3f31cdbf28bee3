/** The driving loop and the context run compiled programs as `Runs` says. */
module GeneratorSimulation {
  import opened GeneratorContext
  import opened GeneratorMachine
  import opened GeneratorPrograms
  import opened GeneratorRecords
  import opened GeneratorSites
  import opened Wrappers

  // ---------------------------------------------------------------------------------------------
  // Equal views of the entries
  // ---------------------------------------------------------------------------------------------

  ghost predicate SameView(p: Program, a: nat, lo: nat, hi: nat, a': nat, lo': nat, hi': nat) {
    forall i | 0 <= i < |p.entries| :: View(p, a, lo, hi, i) == View(p, a', lo', hi', i)
  }

  ghost predicate SameGuardView(p: Program, a: nat, lo: nat, hi: nat, a': nat, lo': nat, hi': nat) {
    forall i | 0 <= i < |p.entries| :: GuardView(p, a, lo, hi, i) == GuardView(p, a', lo', hi', i)
  }

  lemma ViewMoves(p: Program, prev: Place, a: nat, lo: nat, hi: nat, a': nat, lo': nat, hi': nat)
    requires SameView(p, a, lo, hi, a', lo', hi')
    ensures InZone(p, prev, a, lo, hi) <==> InZone(p, prev, a', lo', hi')
  {
  }

  lemma GuardViewMoves(p: Program, prev: Place, a: nat, lo: nat, hi: nat, a': nat, lo': nat, hi': nat)
    requires SameGuardView(p, a, lo, hi, a', lo', hi')
    ensures InGuardZone(p, prev, a, lo, hi) <==> InGuardZone(p, prev, a', lo', hi')
  {
  }

  lemma ViewGivesGuardView(p: Program, a: nat, lo: nat, hi: nat, a': nat, lo': nat, hi': nat)
    requires AllWithin(p.entries, 0, |p.code|) && SameView(p, a, lo, hi, a', lo', hi')
    ensures SameGuardView(p, a, lo, hi, a', lo', hi')
  {
    forall i | 0 <= i < |p.entries| ensures GuardView(p, a, lo, hi, i) == GuardView(p, a', lo', hi', i) {
      assert View(p, a, lo, hi, i) == View(p, a', lo', hi', i);
      ZoneGuards(p.entries[i], At(a), |p.code|);
      ZoneGuards(p.entries[i], At(a'), |p.code|);
    }
  }

  lemma ThenViews(p: Program, s: Stmt, site: Site)
    requires s.Then? && Placed(p, s, site)
    ensures var a, lo, hi, second := site.base, site.lo, site.lo + Count(s), SiteOfSecond(s, site);
            && SameView(p, a, lo, second.lo, a, lo, hi)
            && SameView(p, second.base, second.lo, hi, a, lo, hi)
  {
    var a, lo, hi, second := site.base, site.lo, site.lo + Count(s), SiteOfSecond(s, site);
    PlacedThen(p, s, site);
    LaidWithin(p, s.first, site);
    LaidWithin(p, s.second, second);
    forall i | 0 <= i < |p.entries|
      ensures View(p, a, lo, second.lo, i) == View(p, a, lo, hi, i) == View(p, second.base, second.lo, hi, i)
    {
      if lo <= i < second.lo {
        FarZones(p.entries, i, a, second.base);
      } else if second.lo <= i < hi {
        FarZones(p.entries, i, second.base, a + Size(s));
      }
    }
  }

  /** The last location before the finally block, or before the end if there is none. Seen from there,
      the statement's own entry has only its finally block left. */
  function LastGuarded(s: Stmt, site: Site): nat
    requires s.Try?
  {
    FinallyLoc(s, site.base) - 1
  }

  lemma GuardedViews(p: Program, s: Stmt, site: Site)
    requires s.Try? && Placed(p, s, site)
    ensures var a, lo, hi, g := LastGuarded(s, site), site.lo + 1, site.lo + Count(s), SiteOfGuarded(s, site);
            && (s.handler.None? ==> SameView(p, g.base, g.lo, LoOfHandler(s, site.lo), a, lo, hi))
            && SameGuardView(p, g.base, g.lo, LoOfHandler(s, site.lo), a, lo, hi)
  {
    hide Laid;
    hide GuardedBy;
    hide Spread;
    hide ZoneOf;
    hide Guards;
    var a, lo, hi, g := LastGuarded(s, site), site.lo + 1, site.lo + Count(s), SiteOfGuarded(s, site);
    var m := LoOfHandler(s, site.lo);
    PlacedParts(p, s, site);
    HasPart(p, s, site);
    OwnAtEnds(p, s, site);
    StillGuards(p.entries, |p.code|, site.base, site.base + Size(s), site.lo, hi, g.base);
    StillGuards(p.entries, |p.code|, site.base, site.base + Size(s), site.lo, hi, a);
    forall i | 0 <= i < |p.entries|
      ensures i != site.lo || s.handler.None? ==> View(p, g.base, g.lo, m, i) == View(p, a, lo, hi, i)
      ensures GuardView(p, g.base, g.lo, m, i) == GuardView(p, a, lo, hi, i)
    {
      if m <= i < hi {
        LaterFar(p, s, site, i);
      }
    }
  }

  lemma HasPart(p: Program, s: Stmt, site: Site)
    requires s.Try? && Placed(p, s, site)
    ensures s.handler.Some? || s.finalizer.Some?
  {
  }

  /** The statement's own entry guards its guarded part from the first to the last location. */
  lemma OwnAtEnds(p: Program, s: Stmt, site: Site)
    requires s.Try? && (s.handler.Some? || s.finalizer.Some?) && Spread(p.entries, s, site)
    ensures site.lo < |p.entries|
    ensures Guards(p.entries[site.lo], At(site.base + 1)) == Guards(p.entries[site.lo], At(LastGuarded(s, site)))
    ensures s.handler.None? ==>
              ZoneOf(p.entries[site.lo], At(site.base + 1)) == ZoneOf(p.entries[site.lo], At(LastGuarded(s, site)))
  {
    OwnZones(s, site.base);
  }

  /** The entries after the guarded part do not see it. */
  lemma LaterFar(p: Program, s: Stmt, site: Site, i: nat)
    requires s.Try? && Spread(p.entries, s, site) && LoOfHandler(s, site.lo) <= i < site.lo + Count(s)
    ensures i < |p.entries|
    ensures ZoneOf(p.entries[i], At(site.base + 1)) == Outside && !Guards(p.entries[i], At(site.base + 1))
  {
    if i < LoOfFinalizer(s, site.lo) {
      FarZones(p.entries, i, CatchLoc(s, site.base) + 1, FinallyLoc(s, site.base));
    } else {
      FarZones(p.entries, i, FinallyLoc(s, site.base) + 1, site.base + Size(s));
    }
  }

  lemma HandlerViews(p: Program, s: Stmt, site: Site)
    requires s.Try? && s.handler.Some? && Placed(p, s, site)
    ensures var a, lo, hi, c := LastGuarded(s, site), site.lo + 1, site.lo + Count(s), SiteOfHandler(s, site);
            SameView(p, c.base, c.lo, LoOfFinalizer(s, site.lo), a, lo, hi)
    ensures SameView(p, CatchLoc(s, site.base), site.lo + 1, site.lo + Count(s),
                     LastGuarded(s, site), site.lo + 1, site.lo + Count(s))
  {
    hide Laid;
    hide Sound;
    hide GuardedBy;
    var a, lo, hi, c := LastGuarded(s, site), site.lo + 1, site.lo + Count(s), SiteOfHandler(s, site);
    var m, catchLoc := LoOfFinalizer(s, site.lo), CatchLoc(s, site.base);
    PlacedParts(p, s, site);
    OwnZones(s, site.base);
    forall i | 0 <= i < |p.entries|
      ensures View(p, c.base, c.lo, m, i) == View(p, a, lo, hi, i) == View(p, catchLoc, lo, hi, i)
    {
      if site.lo < i < c.lo {
        FarZones(p.entries, i, site.base + 1, EndOfGuarded(s, site));
      } else if m <= i < hi {
        FarZones(p.entries, i, FinallyLoc(s, site.base) + 1, site.base + Size(s));
      }
    }
  }

  lemma FinalizerViews(p: Program, s: Stmt, site: Site)
    requires s.Try? && s.finalizer.Some? && Placed(p, s, site)
    ensures var lo, hi, f := site.lo, site.lo + Count(s), SiteOfFinalizer(s, site);
            && SameView(p, f.base, f.lo, hi, site.base, lo, hi)
            && SameView(p, f.base - 1, lo, hi, site.base, lo, hi)
            && SameView(p, site.base + Size(s) - 1, lo, hi, site.base, lo, hi)
  {
    hide Laid;
    hide Sound;
    hide GuardedBy;
    var lo, hi, f := site.lo, site.lo + Count(s), SiteOfFinalizer(s, site);
    PlacedParts(p, s, site);
    OwnZones(s, site.base);
    forall i | 0 <= i < |p.entries|
      ensures View(p, f.base, f.lo, hi, i) == View(p, site.base, lo, hi, i)
              == View(p, f.base - 1, lo, hi, i) == View(p, site.base + Size(s) - 1, lo, hi, i)
    {
      if lo < i < LoOfHandler(s, site.lo) {
        FarZones(p.entries, i, site.base + 1, EndOfGuarded(s, site));
      } else if LoOfHandler(s, site.lo) <= i < f.lo {
        FarZones(p.entries, i, CatchLoc(s, site.base) + 1, FinallyLoc(s, site.base));
      }
    }
  }

  /** Without a finally block nothing of the statement is left to be seen. */
  lemma NoFinalizerViews(p: Program, s: Stmt, site: Site)
    requires s.Try? && s.finalizer.None? && Placed(p, s, site)
    ensures SameView(p, LastGuarded(s, site), site.lo + 1, site.lo + Count(s), site.base, site.lo, site.lo + Count(s))
  {
    var a, lo, hi := LastGuarded(s, site), site.lo, site.lo + Count(s);
    PlacedParts(p, s, site);
    OwnZones(s, site.base);
    forall i | 0 <= i < |p.entries| ensures View(p, a, lo + 1, hi, i) == View(p, site.base, lo, hi, i) {
    }
  }

  // ---------------------------------------------------------------------------------------------
  // Where statements start and arrive
  // ---------------------------------------------------------------------------------------------

  function Pending(c: Ctx): Option<Value> {
    if c.mode.ThrowMode? then Some(c.arg) else None
  }

  ghost predicate Live(p: Program, m: Machine, rval: Value) {
    && m.ctx.Valid() && m.ctx.entries == p.entries
    && !m.ctx.done && m.ctx.root == Normal
    && m.ctx.rval == rval
  }

  /** The machine is about to execute location `pc`, with hidden state `h`. */
  ghost predicate Running(p: Program, m: Machine, pc: nat, h: Hidden) {
    && Live(p, m, h.rval)
    && m.phase == Inside(pc) && m.state.Executing?
    && !m.ctx.mode.ReturnMode? && Pending(m.ctx) == h.pending
  }

  /** An exception is about to be dispatched. */
  ghost predicate Raising(p: Program, m: Machine, v: Value, rval: Value) {
    && Live(p, m, rval)
    && m.phase.Looping? && !m.state.SuspendedStart?
    && m.ctx.mode.ThrowMode? && m.ctx.arg == v
  }

  /** A return completion is about to look for a finally block. */
  ghost predicate Leaving(p: Program, m: Machine, v: Value, rval: Value) {
    && Live(p, m, rval)
    && (|| (m.phase.Looping? && m.ctx.mode.ReturnMode? && m.ctx.arg == v)
        || (m.phase.Inside? && m.phase.pc < |p.code| && p.code[m.phase.pc] == GiveAt(v)))
  }

  /** A jump is about to look for a finally block. */
  ghost predicate Breaking(p: Program, m: Machine, target: nat, rval: Value) {
    && Live(p, m, rval)
    && m.phase.Inside? && m.phase.pc < |p.code| && p.code[m.phase.pc] == BreakAt(target)
  }

  ghost predicate Near(p: Program, prev: Place, pc: nat, base: nat, lo: nat, hi: nat) {
    prev == At(pc) || InZone(p, prev, base, lo, hi)
  }

  ghost predicate Ready(p: Program, m: Machine, s: Stmt, site: Site, h: Hidden) {
    var hi := site.lo + Count(s);
    && Running(p, m, site.base, h)
    && Near(p, m.ctx.prev, site.base, site.base, site.lo, hi)
    && Holds(m.ctx.completions, s, site, h)
  }

  /** The machine has done `r` and is where its completion says: at `end`, on its way to a handler, at
      a label, or waiting; or a round of a loop has gone by without a call. `base`, `lo` and `hi` say how
      the entries are seen from there. */
  ghost predicate Arrived(p: Program, m: Machine, r: Result, site: Site, base: nat, lo: nat, hi: nat, end: nat) {
    match r.comp
    case Normally => Running(p, m, end, r.h) && Near(p, m.ctx.prev, end, base, lo, hi)
    case Throwing(v) => Raising(p, m, v, r.h.rval) && InZone(p, m.ctx.prev, base, lo, hi)
    case Returning(v) => Leaving(p, m, v, r.h.rval) && InGuardZone(p, m.ctx.prev, base, lo, hi)
    case Jumping(k, direct) =>
      && k < |site.env|
      && if direct then Running(p, m, site.env[k], r.h) && m.ctx.prev == At(site.env[k]) && r.h.pending.None?
         else Breaking(p, m, site.env[k], r.h.rval) && InGuardZone(p, m.ctx.prev, base, lo, hi)
              && site.inside.Some? && k >= site.inside.value
    case Waiting => m.phase.Idle? && m.inputs == [] && m.ctx.Valid()
    case Spinning => m.ctx.Valid()
  }

  ghost predicate Did(m: Machine, m': Machine, r: Result) {
    m'.log == m.log + r.log && m'.inputs == r.inputs
  }

  ghost predicate Arrives(p: Program, m: Machine, m': Machine, s: Stmt, site: Site, r: Result) {
    var hi := site.lo + Count(s);
    && Did(m, m', r)
    && Untouched(m.ctx.completions, m'.ctx.completions, site.lo, hi)
    && Holds(m'.ctx.completions, s, site, r.h)
    && Arrived(p, m', r, site, site.base, site.lo, hi, site.base + Size(s))
  }

  /** `n` steps lead from `m` to `m'`. */
  ghost predicate Leads(p: Program, m: Machine, n: nat, m': Machine) {
    m.ctx.Valid() && Steps(p, m, n) == m'
  }

  lemma LeadsOn(p: Program, m: Machine, a: nat, m': Machine, b: nat, m'': Machine)
    requires Leads(p, m, a, m') && Leads(p, m', b, m'')
    ensures Leads(p, m, a + b, m'')
  {
    StepsAdd(p, m, a, b);
  }

  lemma OneStep(p: Program, m: Machine)
    requires m.ctx.Valid()
    ensures Leads(p, m, 1, Step(p, m))
  {
    assert Steps(p, Step(p, m), 0) == Step(p, m);
  }

  lemma NoSteps(p: Program, m: Machine)
    requires m.ctx.Valid()
    ensures Leads(p, m, 0, m)
  {
  }

  lemma TwoSteps(p: Program, m: Machine)
    requires m.ctx.Valid()
    ensures Leads(p, m, 2, Step(p, Step(p, m)))
  {
    OneStep(p, m);
    OneStep(p, Step(p, m));
    LeadsOn(p, m, 1, Step(p, m), 1, Step(p, Step(p, m)));
  }

  // ---------------------------------------------------------------------------------------------
  // Single statements
  // ---------------------------------------------------------------------------------------------

  lemma CodeThere(p: Program, s: Stmt, site: Site)
    requires Placed(p, s, site)
    ensures site.base < |p.code| && p.code[site.base] == Code(s, site.base, site.env)[0]
  {
    assert p.code[site.base..site.base + Size(s)][0] == p.code[site.base];
  }

  lemma NearIsIn(p: Program, prev: Place, s: Stmt, site: Site)
    requires Placed(p, s, site) && Count(s) == 0 && Near(p, prev, site.base, site.base, site.lo, site.lo)
    ensures InZone(p, prev, site.base, site.lo, site.lo) && InGuardZone(p, prev, site.base, site.lo, site.lo)
  {
    InZoneGuards(p, prev, site.base, site.lo, site.lo);
  }

  lemma SimulateStraight(p: Program, s: Stmt, site: Site, m: Machine, h: Hidden) returns (m': Machine, n: nat)
    requires Placed(p, s, site) && Ready(p, m, s, site, h)
    requires s.Emit? || s.Raise? || s.Give?
    ensures Leads(p, m, n, m') && Arrives(p, m, m', s, site, Runs(s, site.lo, site.inside, h, m.inputs))
  {
    CodeThere(p, s, site);
    NearIsIn(p, m.ctx.prev, s, site);
    if s.Give? {
      m', n := m, 0;
    } else {
      m', n := Step(p, m), 1;
      OneStep(p, m);
    }
  }

  lemma SimulateJump(p: Program, s: Stmt, site: Site, m: Machine, h: Hidden) returns (m': Machine, n: nat)
    requires s.Jump? && Placed(p, s, site) && Ready(p, m, s, site, h)
    ensures Leads(p, m, n, m') && Arrives(p, m, m', s, site, Runs(s, site.lo, site.inside, h, m.inputs))
  {
    CodeThere(p, s, site);
    NearIsIn(p, m.ctx.prev, s, site);
    if site.inside.Some? && s.k >= site.inside.value {
      m', n := m, 0;
    } else {
      GuardFound(p, s, site, m.ctx);
      assert Detour(m.ctx, Break(site.env[s.k])) == -1;
      var m1 := Step(p, m);
      assert m1 == m.(ctx := m.ctx.(next := At(site.env[s.k])), state := SuspendedYield, phase := Looping);
      if h.pending.Some? {
        OneStep(p, m);
        m', n := m1, 1;
      } else {
        TwoSteps(p, m);
        m', n := Step(p, m1), 2;
      }
    }
  }

  lemma SimulateYield(p: Program, s: Stmt, site: Site, m: Machine, h: Hidden) returns (m': Machine, n: nat)
    requires s.Yield? && Placed(p, s, site) && Ready(p, m, s, site, h)
    ensures Leads(p, m, n, m') && Arrives(p, m, m', s, site, Runs(s, site.lo, site.inside, h, m.inputs))
  {
    CodeThere(p, s, site);
    NearIsIn(p, m.ctx.prev, s, site);
    var m1 := Step(p, m);
    OneStep(p, m);
    if m.inputs == [] {
      m', n := m1, 1;
    } else {
      var m2 := Step(p, m1);
      TwoSteps(p, m);
      if m.inputs[0].mode.NextMode? {
        m', n := Step(p, m2), 3;
        OneStep(p, m2);
        LeadsOn(p, m, 2, m2, 1, m');
      } else {
        m', n := m2, 2;
      }
    }
  }

  // ---------------------------------------------------------------------------------------------
  // Sequences and labels
  // ---------------------------------------------------------------------------------------------

  /** Arriving in a part that is seen like the whole is arriving in the whole. */
  lemma ArrivedElsewhere(p: Program, m: Machine, r: Result, site: Site, base: nat, lo: nat, hi: nat, end: nat,
                         base': nat, lo': nat, hi': nat, end': nat)
    requires Sound(p)
    requires Arrived(p, m, r, site, base, lo, hi, end) && SameView(p, base, lo, hi, base', lo', hi')
    requires r.comp == Normally ==> end' == end
    ensures Arrived(p, m, r, site, base', lo', hi', end')
  {
    ViewMoves(p, m.ctx.prev, base, lo, hi, base', lo', hi');
    ViewGivesGuardView(p, base, lo, hi, base', lo', hi');
    GuardViewMoves(p, m.ctx.prev, base, lo, hi, base', lo', hi');
  }

  lemma PlacedIsSound(p: Program, s: Stmt, site: Site)
    requires Placed(p, s, site)
    ensures Sound(p)
  {
  }

  lemma DidBoth(m: Machine, m1: Machine, m2: Machine, r1: Result, r2: Result)
    requires Did(m, m1, r1) && Did(m1, m2, r2)
    ensures Did(m, m2, r2.After(r1.log))
  {
    assert m.log + r1.log + r2.log == m.log + (r1.log + r2.log);
  }

  lemma UntouchedBoth(cs: seq<Completion>, cs1: seq<Completion>, cs2: seq<Completion>, lo: nat, mid: nat, lo': nat,
                      hi: nat)
    requires Untouched(cs, cs1, lo, mid) && Untouched(cs1, cs2, lo', hi) && lo <= lo' && mid <= hi
    ensures Untouched(cs, cs2, lo, hi)
  {
  }

  lemma UntouchedWithin(cs: seq<Completion>, cs': seq<Completion>, lo: nat, hi: nat, lo': nat, hi': nat)
    requires Untouched(cs, cs', lo, hi) && lo' <= lo && hi <= hi'
    ensures Untouched(cs, cs', lo', hi')
  {
  }

  /** The second statement of a sequence runs if the first completed normally. */
  lemma SimulateRest(p: Program, s: Stmt, site: Site, m: Machine, m1: Machine, r: Result) returns (m': Machine, n: nat)
    requires s.Then? && Placed(p, s, site) && Holds(m1.ctx.completions, s.second, SiteOfSecond(s, site), r.h)
    requires Arrives(p, m, m1, s.first, site, r) && m1.ctx.Valid()
    ensures Leads(p, m1, n, m')
    ensures Arrives(p, m, m', s, site,
              if r.comp == Normally
              then Runs(s.second, SiteOfSecond(s, site).lo, site.inside, r.h, r.inputs).After(r.log) else r)
    decreases |m1.inputs|, s, -1
  {
    hide Runs;
    hide HoldsAt;
    hide Leads;
    hide Placed;
    hide Sound;
    hide SameView;
    hide InZone;
    hide InGuardZone;
    hide Running;
    hide Arrived;
    hide Did;
    hide Untouched;
    hide SameOutside;
    var second, end, hi := SiteOfSecond(s, site), site.base + Size(s), site.lo + Count(s);
    PlacedIsSound(p, s, site);
    PlacedThen(p, s, site);
    ThenViews(p, s, site);
    if r.comp == Normally {
      NormallyReady(p, s, site, m, m1, r);
      m', n := Simulate(p, s.second, second, m1, r.h);
      var r2 := Runs(s.second, second.lo, site.inside, r.h, r.inputs);
      ArrivedElsewhere(p, m', r2, second, second.base, second.lo, hi, end, site.base, site.lo, hi, end);
      ArrivedAfter(p, m', r2, r.log, second, site, site.base, site.lo, hi, end);
      DidBoth(m, m1, m', r, r2);
      UntouchedBoth(m.ctx.completions, m1.ctx.completions, m'.ctx.completions, site.lo, second.lo, second.lo, hi);
      KeepsOthers(s.second, second.lo, site.inside, r.h, r.inputs);
      HoldsAfterThen(m1.ctx.completions, m'.ctx.completions, s, site, r.h, r2.h, true);
    } else {
      ArrivedElsewhere(p, m1, r, site, site.base, site.lo, second.lo, second.base, site.base, site.lo, hi, end);
      UntouchedWithin(m.ctx.completions, m1.ctx.completions, site.lo, second.lo, site.lo, hi);
      m', n := m1, 0;
      NoSteps(p, m1);
    }
  }

  /** The first statement of a sequence does not touch the entries of the second. */
  lemma SecondHolds(p: Program, s: Stmt, site: Site, m: Machine, m1: Machine, h: Hidden)
    requires s.Then? && Holds(m.ctx.completions, s, site, h)
    requires var r := Runs(s.first, site.lo, site.inside, h, m.inputs); Arrives(p, m, m1, s.first, site, r)
    ensures Holds(m1.ctx.completions, s.second, SiteOfSecond(s, site),
                  Runs(s.first, site.lo, site.inside, h, m.inputs).h)
  {
    hide Arrived;
    hide Untouched;
    hide SameOutside;
    KeepsOthers(s.first, site.lo, site.inside, h, m.inputs);
    HoldsStill(m.ctx.completions, m1.ctx.completions, s.second, SiteOfSecond(s, site), h,
               Runs(s.first, site.lo, site.inside, h, m.inputs).h, site.lo, site.lo + Count(s.first));
  }

  lemma FirstReady(p: Program, s: Stmt, site: Site, m: Machine, h: Hidden)
    requires s.Then? && Placed(p, s, site) && Ready(p, m, s, site, h)
    ensures Placed(p, s.first, site) && Ready(p, m, s.first, site, h) && Holds(m.ctx.completions, s, site, h)
  {
    hide Placed;
    hide SameView;
    hide InZone;
    hide Running;
    hide HoldsAt;
    var second, hi := SiteOfSecond(s, site), site.lo + Count(s);
    PlacedThen(p, s, site);
    ThenViews(p, s, site);
    ViewMoves(p, m.ctx.prev, site.base, site.lo, second.lo, site.base, site.lo, hi);
  }

  lemma SimulateThen(p: Program, s: Stmt, site: Site, m: Machine, h: Hidden) returns (m': Machine, n: nat)
    requires s.Then? && Placed(p, s, site) && Ready(p, m, s, site, h)
    ensures Leads(p, m, n, m') && Arrives(p, m, m', s, site, Runs(s, site.lo, site.inside, h, m.inputs))
    decreases |m.inputs|, s, 0
  {
    hide Placed;
    hide Ready;
    hide Arrives;
    hide Holds;
    hide Leads;
    FirstReady(p, s, site, m, h);
    var m1, n1 := Simulate(p, s.first, site, m, h);
    var r := Runs(s.first, site.lo, site.inside, h, m.inputs);
    SecondHolds(p, s, site, m, m1, h);
    ArrivesInputs(p, m, m1, s.first, site, r);
    LeadsValid(p, m, n1, m1);
    var m2, n2 := SimulateRest(p, s, site, m, m1, r);
    LeadsOn(p, m, n1, m1, n2, m2);
    m', n := m2, n1 + n2;
  }

  lemma LeadsValid(p: Program, m: Machine, n: nat, m': Machine)
    requires Leads(p, m, n, m')
    ensures m'.ctx.Valid()
  {
  }

  lemma ArrivesInputs(p: Program, m: Machine, m': Machine, s: Stmt, site: Site, r: Result)
    requires Arrives(p, m, m', s, site, r)
    ensures m'.inputs == r.inputs
  {
  }

  /** What came before makes no difference to where the machine is. */
  lemma ArrivedAfter(p: Program, m: Machine, r: Result, earlier: seq<Event>, part: Site, site: Site,
                     base: nat, lo: nat, hi: nat, end: nat)
    requires Arrived(p, m, r, part, base, lo, hi, end) && part.env == site.env && part.inside == site.inside
    ensures Arrived(p, m, r.After(earlier), site, base, lo, hi, end)
  {
    hide Running;
    hide InZone;
    hide InGuardZone;
  }

  /** The first statement of a sequence hands over to the second. */
  lemma NormallyReady(p: Program, s: Stmt, site: Site, m: Machine, m1: Machine, r: Result)
    requires s.Then? && Placed(p, s, site) && Holds(m1.ctx.completions, s.second, SiteOfSecond(s, site), r.h)
    requires r.comp == Normally && Arrives(p, m, m1, s.first, site, r)
    ensures Ready(p, m1, s.second, SiteOfSecond(s, site), r.h) && m1.inputs == r.inputs
  {
    hide Placed;
    hide SameView;
    hide InZone;
    hide Untouched;
    hide Running;
    var second, hi := SiteOfSecond(s, site), site.lo + Count(s);
    ThenViews(p, s, site);
    ViewMoves(p, m1.ctx.prev, site.base, site.lo, second.lo, site.base, site.lo, hi);
    ViewMoves(p, m1.ctx.prev, second.base, second.lo, hi, site.base, site.lo, hi);
  }

  lemma SimulateLabelled(p: Program, s: Stmt, site: Site, m: Machine, h: Hidden) returns (m': Machine, n: nat)
    requires s.Labelled? && Placed(p, s, site) && Ready(p, m, s, site, h)
    ensures Leads(p, m, n, m') && Arrives(p, m, m', s, site, Runs(s, site.lo, site.inside, h, m.inputs))
    decreases |m.inputs|, s, 0
  {
    hide Leads;
    hide Placed;
    hide Running;
    hide InZone;
    hide Arrived;
    hide Untouched;
    PlacedBody(p, s, site);
    m', n := Simulate(p, s.body, SiteOfBody(s, site), m, h);
    var r := Runs(s.body, site.lo, SiteOfBody(s, site).inside, h, m.inputs);
    ArrivedAtLabel(p, m', r, s, site);
  }

  lemma ArrivedAtLabel(p: Program, m: Machine, r: Result, s: Stmt, site: Site)
    requires s.Labelled?
    requires Arrived(p, m, r, SiteOfBody(s, site), site.base, site.lo, site.lo + Count(s), site.base + Size(s))
    ensures Arrived(p, m, r.AtLabel(), site, site.base, site.lo, site.lo + Count(s), site.base + Size(s))
  {
    hide InZone;
    hide InGuardZone;
    if r.comp.Jumping? && r.comp.k > 0 {
      assert SiteOfBody(s, site).env[r.comp.k] == site.env[r.comp.k - 1];
    }
  }

  // ---------------------------------------------------------------------------------------------
  // Loops
  // ---------------------------------------------------------------------------------------------

  /** No entry tells the inside of a loop from its head. */
  lemma RoundViews(p: Program, s: Stmt, site: Site)
    requires s.Loop? && Placed(p, s, site)
    ensures SameView(p, site.base + 1, site.lo, site.lo + Count(s), site.base, site.lo, site.lo + Count(s))
    ensures InZone(p, At(site.base), site.base + 1, site.lo, site.lo + Count(s))
  {
    hide GuardedBy;
    hide CodeAt;
    hide EntriesAt;
    var a, lo, hi := site.base, site.lo, site.lo + Count(s);
    PlacedRound(p, s, site);
    LaidWithin(p, s.body, SiteOfRound(s, site));
    forall i | 0 <= i < |p.entries|
      ensures View(p, a + 1, lo, hi, i) == View(p, a, lo, hi, i) == ZoneOf(p.entries[i], At(a))
    {
      if lo <= i < hi {
        FarZones(p.entries, i, a + 1, a + 1 + Size(s.body));
      }
    }
  }

  /** The test at the head leads into a round. */
  lemma BeginRound(p: Program, s: Stmt, site: Site, m: Machine, h: Hidden) returns (m': Machine)
    requires s.Loop? && Placed(p, s, site) && Ready(p, m, s, site, h)
    ensures Leads(p, m, 1, m') && Ready(p, m', s.body, SiteOfRound(s, site), h) && SameSoFar(m, m')
  {
    hide Placed;
    hide InZone;
    hide SameView;
    PlacedRound(p, s, site);
    RoundViews(p, s, site);
    InProgram(p, s, site);
    ViewMoves(p, m.ctx.prev, site.base + 1, site.lo, site.lo + Count(s), site.base, site.lo, site.lo + Count(s));
    m' := Step(p, m);
    OneStep(p, m);
  }

  lemma InProgram(p: Program, s: Stmt, site: Site)
    requires Placed(p, s, site)
    ensures site.base + Size(s) <= |p.code|
  {
  }

  /** A round that comes to its end, by itself or by a jump to the loop, leads back to the head. */
  lemma RoundEnds(p: Program, s: Stmt, site: Site, m: Machine, m1: Machine, r: Result) returns (m': Machine, n: nat)
    requires s.Loop? && Placed(p, s, site)
    requires Arrives(p, m, m1, s.body, SiteOfRound(s, site), r) && r.AtLabel().comp == Normally
    ensures Leads(p, m1, n, m') && SameSoFar(m1, m') && Ready(p, m', s, site, r.h) && m'.ctx.Valid()
  {
    hide Placed;
    hide InZone;
    hide InGuardZone;
    hide Untouched;
    PlacedRound(p, s, site);
    InProgram(p, s, site);
    if r.comp == Normally {
      m', n := Step(p, m1), 1;
      OneStep(p, m1);
    } else {
      m', n := m1, 0;
    }
  }

  lemma ArrivedOut(p: Program, m: Machine, r: Result, s: Stmt, site: Site)
    requires s.Loop? && Placed(p, s, site) && r.AtLabel().comp != Normally
    requires Arrived(p, m, r, SiteOfRound(s, site), site.base + 1, site.lo, site.lo + Count(s),
                     site.base + 1 + Size(s.body))
    ensures Arrived(p, m, r.AtLabel(), site, site.base, site.lo, site.lo + Count(s), site.base + Size(s))
  {
    hide Placed;
    hide InZone;
    hide InGuardZone;
    hide SameView;
    hide SameGuardView;
    hide Sound;
    var lo, hi := site.lo, site.lo + Count(s);
    PlacedIsSound(p, s, site);
    RoundViews(p, s, site);
    ViewGivesGuardView(p, site.base + 1, lo, hi, site.base, lo, hi);
    ViewMoves(p, m.ctx.prev, site.base + 1, lo, hi, site.base, lo, hi);
    GuardViewMoves(p, m.ctx.prev, site.base + 1, lo, hi, site.base, lo, hi);
    if r.comp.Jumping? {
      assert SiteOfRound(s, site).env[r.comp.k] == site.env[r.comp.k - 1];
    }
  }

  /** Round after round. */
  lemma SimulateLoop(p: Program, s: Stmt, site: Site, m: Machine, h: Hidden) returns (m': Machine, n: nat)
    requires s.Loop? && Placed(p, s, site) && Ready(p, m, s, site, h)
    ensures Leads(p, m, n, m') && Arrives(p, m, m', s, site, Runs(s, site.lo, site.inside, h, m.inputs))
    decreases |m.inputs|, s, 0
  {
    hide Placed;
    hide Running;
    hide Near;
    hide Leads;
    hide Holds;
    PlacedRound(p, s, site);
    var m1 := BeginRound(p, s, site, m, h);
    var m2, n2 := Simulate(p, s.body, SiteOfRound(s, site), m1, h);
    LeadsOn(p, m, 1, m1, n2, m2);
    var r := Runs(s.body, site.lo, Deeper(site.inside), h, m.inputs);
    if r.AtLabel().comp == Normally {
      var m3, n3 := RoundEnds(p, s, site, m1, m2, r);
      LeadsOn(p, m, 1 + n2, m2, n3, m3);
      if |r.inputs| < |m.inputs| {
        var m4, n4 := SimulateLoop(p, s, site, m3, r.h);
        LeadsOn(p, m, 1 + n2 + n3, m3, n4, m4);
        RoundAndRest(p, s, site, m, m1, m2, m3, m4, r, Runs(s, site.lo, site.inside, r.h, r.inputs));
        m', n := m4, 1 + n2 + n3 + n4;
      } else {
        Spun(p, s, site, m, m1, m2, m3, r);
        m', n := m3, 1 + n2 + n3;
      }
    } else {
      LeftLoop(p, s, site, m, m1, m2, r);
      m', n := m2, 1 + n2;
    }
  }

  lemma LeftLoop(p: Program, s: Stmt, site: Site, m: Machine, m1: Machine, m2: Machine, r: Result)
    requires s.Loop? && Placed(p, s, site) && SameSoFar(m, m1) && r.AtLabel().comp != Normally
    requires Arrives(p, m1, m2, s.body, SiteOfRound(s, site), r)
    ensures Arrives(p, m, m2, s, site, r.AtLabel())
  {
    hide Placed;
    hide Arrived;
    hide Untouched;
    ArrivedOut(p, m2, r, s, site);
  }

  lemma RoundAndRest(p: Program, s: Stmt, site: Site, m: Machine, m1: Machine, m2: Machine, m3: Machine, m4: Machine,
                     r: Result, r4: Result)
    requires s.Loop? && SameSoFar(m, m1) && SameSoFar(m2, m3)
    requires Arrives(p, m1, m2, s.body, SiteOfRound(s, site), r) && Arrives(p, m3, m4, s, site, r4)
    ensures Arrives(p, m, m4, s, site, r4.After(r.log))
  {
    hide Arrived;
    hide Untouched;
    ArrivedAfter(p, m4, r4, r.log, site, site, site.base, site.lo, site.lo + Count(s), site.base + Size(s));
    assert m.log + r.log + r4.log == m.log + (r.log + r4.log);
    UntouchedBoth(m.ctx.completions, m3.ctx.completions, m4.ctx.completions, site.lo, site.lo + Count(s), site.lo,
                  site.lo + Count(s));
  }

  lemma Spun(p: Program, s: Stmt, site: Site, m: Machine, m1: Machine, m2: Machine, m3: Machine, r: Result)
    requires s.Loop? && SameSoFar(m, m1) && SameSoFar(m2, m3) && m3.ctx.Valid()
    requires Arrives(p, m1, m2, s.body, SiteOfRound(s, site), r)
    ensures Arrives(p, m, m3, s, site, r.AtLabel().(comp := Spinning))
  {
    hide Untouched;
  }

  // ---------------------------------------------------------------------------------------------
  // Try statements
  // ---------------------------------------------------------------------------------------------

  /** The end of the guarded part and the handler, just before the finally block. */
  ghost predicate ReachesFinally(p: Program, m: Machine, m': Machine, s: Stmt, site: Site, r: Result)
    requires s.Try?
  {
    var inner := SiteOfGuarded(s, site);
    && Did(m, m', r)
    && Untouched(m.ctx.completions, m'.ctx.completions, site.lo, LoOfFinalizer(s, site.lo))
    && Holds(m'.ctx.completions, s, site, r.h)
    && Arrived(p, m', r, inner, LastGuarded(s, site), site.lo + 1, site.lo + Count(s), FinallyLoc(s, site.base))
  }

  /** Of all entries, the statement's own handles an exception in its guarded part. */
  lemma HandlerFound(p: Program, s: Stmt, site: Site, c: Ctx)
    requires s.Try? && s.handler.Some? && Placed(p, s, site) && c.entries == p.entries
    requires InZone(p, c.prev, site.base + 1, site.lo + 1, LoOfHandler(s, site.lo))
    ensures site.lo < |p.entries| && p.entries[site.lo] == Entry(s, site.base)
    ensures Handler(c) == site.lo && ZoneOf(p.entries[site.lo], c.prev) == ToCatch
  {
    PlacedParts(p, s, site);
    OwnZones(s, site.base);
    assert View(p, site.base + 1, site.lo + 1, LoOfHandler(s, site.lo), site.lo) == ToCatch;
    forall j | site.lo < j < |p.entries| ensures ZoneOf(p.entries[j], c.prev) == Outside {
      HandlerIsInnermost(p, s, site, j);
    }
    LastIs(p.entries, Handling(c.prev), site.lo);
  }

  lemma OwnTry(p: Program, s: Stmt, site: Site, c: Ctx)
    requires s.Try? && s.handler.Some? && Placed(p, s, site) && c.entries == p.entries
    ensures EntryWithTry(c, site.base) == site.lo
    ensures CatchLoc(s, site.base) < |p.code| && p.code[CatchLoc(s, site.base)] == CatchAt(site.base)
  {
    PlacedParts(p, s, site);
    HandlerAt(p, s, site);
    LastIs(p.entries, TryAt(site.base), site.lo);
  }

  /** An exception in the guarded part gets to the handler. */
  lemma EnterHandler(p: Program, s: Stmt, site: Site, m: Machine, v: Value, h: Hidden)
    returns (m': Machine, n: nat)
    requires s.Try? && s.handler.Some? && Placed(p, s, site)
    requires Raising(p, m, v, h.rval) && site.lo < |m.ctx.completions| && h.pending.None?
    requires InZone(p, m.ctx.prev, site.base + 1, site.lo + 1, LoOfHandler(s, site.lo))
    ensures Leads(p, m, n, m') && Running(p, m', CatchLoc(s, site.base) + 1, h)
    ensures m'.ctx.prev == At(CatchLoc(s, site.base)) && m'.inputs == m.inputs && m'.log == m.log + [Entered(v)]
    ensures m'.ctx.completions == m.ctx.completions[site.lo := Normal]
  {
    hide Placed;
    hide InZone;
    HandlerFound(p, s, site, m.ctx);
    OwnTry(p, s, site, m.ctx);
    var m1 := Step(p, m);
    assert m1.phase == Inside(CatchLoc(s, site.base));
    assert m1.ctx.completions == m.ctx.completions[site.lo := Throw(v)];
    OwnTry(p, s, site, m1.ctx.(prev := At(CatchLoc(s, site.base))));
    m', n := Step(p, m1), 2;
    TwoSteps(p, m);
  }

  lemma HandlerIsInnermost(p: Program, s: Stmt, site: Site, j: nat)
    requires s.Try? && Placed(p, s, site) && Spread(p.entries, s, site) && site.lo < j < |p.entries|
    ensures View(p, site.base + 1, site.lo + 1, LoOfHandler(s, site.lo), j) == Outside
  {
    if j >= site.lo + Count(s) {
      assert ZoneOf(p.entries[j], At(site.base + 1)) == ZoneOf(p.entries[j], At(site.base)) == Outside;
    } else if j >= LoOfFinalizer(s, site.lo) {
      FarZones(p.entries, j, FinallyLoc(s, site.base) + 1, site.base + Size(s));
    } else if j >= LoOfHandler(s, site.lo) {
      FarZones(p.entries, j, CatchLoc(s, site.base) + 1, FinallyLoc(s, site.base));
    }
  }

  /** The mark leads into the guarded part. */
  lemma BeginGuarded(p: Program, s: Stmt, site: Site, m: Machine, h: Hidden) returns (m': Machine)
    requires s.Try? && Placed(p, s, site) && Ready(p, m, s, site, h)
    ensures Leads(p, m, 1, m') && Ready(p, m', s.guarded, SiteOfGuarded(s, site), h)
    ensures SameSoFar(m, m') && Holds(m'.ctx.completions, s, site, h)
  {
    hide InZone;
    LaidGuarded(p, s, site);
    MarkInGuarded(p, s, site);
    m' := Step(p, m);
    OneStep(p, m);
  }

  /** Nothing observable has happened. */
  ghost predicate SameSoFar(m: Machine, m': Machine) {
    m'.log == m.log && m'.inputs == m.inputs && m'.ctx.completions == m.ctx.completions
  }

  lemma ReachesFromStart(p: Program, m: Machine, m1: Machine, m': Machine, s: Stmt, site: Site, r: Result)
    requires s.Try? && SameSoFar(m, m1) && ReachesFinally(p, m1, m', s, site, r)
    ensures ReachesFinally(p, m, m', s, site, r)
  {
    hide Arrived;
  }

  lemma SimulateGuarded(p: Program, s: Stmt, site: Site, m: Machine, h: Hidden) returns (m': Machine, n: nat)
    requires s.Try? && Placed(p, s, site) && Ready(p, m, s, site, h)
    ensures Leads(p, m, n, m')
    ensures ReachesFinally(p, m, m', s, site, RunsGuarded(s, site.lo, site.inside, h, m.inputs))
    decreases |m.inputs|, s, 0
  {
    hide Placed;
    hide Ready;
    hide Arrived;
    hide Untouched;
    hide Holds;
    hide ReachesFinally;
    hide Spread;
    hide Leads;
    hide Did;
    var g := SiteOfGuarded(s, site);
    PlacedParts(p, s, site);
    var m1 := BeginGuarded(p, s, site, m, h);
    var m2, n2 := Simulate(p, s.guarded, g, m1, h);
    LeadsOn(p, m, 1, m1, n2, m2);
    var r := Runs(s.guarded, g.lo, g.inside, h, m.inputs);
    GuardedHolds(p, s, site, m1, m2, h);
    ArrivesInputs(p, m1, m2, s.guarded, g, r);
    LeadsValid(p, m, 1 + n2, m2);
    var n3;
    if r.comp.Throwing? && s.handler.Some? {
      m', n3 := SimulateHandler(p, s, site, m1, m2, r);
    } else {
      m', n3 := SkipHandler(p, s, site, m1, m2, r);
    }
    LeadsOn(p, m, 1 + n2, m2, n3, m');
    n := 1 + n2 + n3;
    ReachesFromStart(p, m, m1, m', s, site, RunsGuarded(s, site.lo, site.inside, h, m.inputs));
  }

  lemma GuardedHolds(p: Program, s: Stmt, site: Site, m: Machine, m1: Machine, h: Hidden)
    requires s.Try? && Holds(m.ctx.completions, s, site, h)
    requires var g := SiteOfGuarded(s, site);
             Arrives(p, m, m1, s.guarded, g, Runs(s.guarded, g.lo, g.inside, h, m.inputs))
    ensures var g := SiteOfGuarded(s, site);
            Holds(m1.ctx.completions, s, site, Runs(s.guarded, g.lo, g.inside, h, m.inputs).h)
  {
    hide Arrived;
    hide Untouched;
    hide SameOutside;
    hide Holds;
    var g := SiteOfGuarded(s, site);
    KeepsOthers(s.guarded, g.lo, g.inside, h, m.inputs);
    HoldsAfterGuarded(m.ctx.completions, m1.ctx.completions, s, site, h,
                      Runs(s.guarded, g.lo, g.inside, h, m.inputs).h);
  }

  /** The guarded part threw: the handler runs. */
  lemma SimulateHandler(p: Program, s: Stmt, site: Site, m: Machine, m1: Machine, r: Result)
    returns (m': Machine, n: nat)
    requires s.Try? && s.handler.Some? && Placed(p, s, site) && r.comp.Throwing?
    requires Arrives(p, m, m1, s.guarded, SiteOfGuarded(s, site), r) && Holds(m1.ctx.completions, s, site, r.h)
    ensures Leads(p, m1, n, m')
    ensures ReachesFinally(p, m, m', s, site,
              Runs(s.handler.value, LoOfHandler(s, site.lo), Inner(s, site.inside), OnHandler(r, site.lo), r.inputs)
                .After(r.log + [Entered(r.comp.thrown)]))
    decreases |m1.inputs|, s, -1
  {
    hide Placed;
    hide Ready;
    hide Spread;
    hide Untouched;
    hide InZone;
    hide Running;
    hide Leads;
    hide Holds;
    hide ReachesFinally;
    var c, h := SiteOfHandler(s, site), OnHandler(r, site.lo);
    OwnHeld(m1, s, site, r.h);
    var m2, n2 := EnterHandler(p, s, site, m1, r.comp.thrown, h);
    HandlerReady(p, s, site, m1, m2, r);
    PlacedParts(p, s, site);
    var m3, n3 := Simulate(p, s.handler.value, c, m2, h);
    LeadsOn(p, m1, n2, m2, n3, m3);
    m', n := m3, n2 + n3;
    HandlerHolds(p, s, site, m2, m3, h);
    HandlerReaches(p, s, site, m, m1, m2, m3, r, Runs(s.handler.value, c.lo, c.inside, h, r.inputs));
  }

  lemma OwnHeld(m: Machine, s: Stmt, site: Site, h: Hidden)
    requires s.Try? && Holds(m.ctx.completions, s, site, h)
    ensures HoldsAt(m.ctx.completions, site.lo, site.env, h)
  {
  }

  lemma HandlerReady(p: Program, s: Stmt, site: Site, m1: Machine, m2: Machine, r: Result)
    requires s.Try? && s.handler.Some? && Placed(p, s, site) && Holds(m1.ctx.completions, s, site, r.h)
    requires site.lo < |m1.ctx.completions| && m2.ctx.completions == m1.ctx.completions[site.lo := Normal]
    requires Running(p, m2, CatchLoc(s, site.base) + 1, OnHandler(r, site.lo))
    requires m2.ctx.prev == At(CatchLoc(s, site.base))
    ensures Ready(p, m2, s.handler.value, SiteOfHandler(s, site), OnHandler(r, site.lo))
    ensures Holds(m2.ctx.completions, s, site, OnHandler(r, site.lo))
  {
    hide Placed;
    hide Running;
    hide InZone;
    StartsHandler(p, s, site);
    HoldsKept(m1.ctx.completions, s, site, r.h, Normally);
    HoldsAlike(m2.ctx.completions, s, site, r.h.Keep(site.lo, Normally), OnHandler(r, site.lo));
  }

  lemma HandlerHolds(p: Program, s: Stmt, site: Site, m: Machine, m1: Machine, h: Hidden)
    requires s.Try? && s.handler.Some? && Holds(m.ctx.completions, s, site, h)
    requires var c := SiteOfHandler(s, site);
             Arrives(p, m, m1, s.handler.value, c, Runs(s.handler.value, c.lo, c.inside, h, m.inputs))
    ensures var c := SiteOfHandler(s, site);
            Holds(m1.ctx.completions, s, site, Runs(s.handler.value, c.lo, c.inside, h, m.inputs).h)
  {
    hide Arrived;
    hide Untouched;
    hide SameOutside;
    hide Holds;
    var c := SiteOfHandler(s, site);
    KeepsOthers(s.handler.value, c.lo, c.inside, h, m.inputs);
    HoldsAfterHandler(m.ctx.completions, m1.ctx.completions, s, site, h,
                      Runs(s.handler.value, c.lo, c.inside, h, m.inputs).h);
  }

  lemma HandlerReaches(p: Program, s: Stmt, site: Site, m: Machine, m1: Machine, m2: Machine, m3: Machine,
                       r: Result, r3: Result)
    requires s.Try? && s.handler.Some? && Placed(p, s, site) && r.comp.Throwing?
    requires Arrives(p, m, m1, s.guarded, SiteOfGuarded(s, site), r) && site.lo < |m1.ctx.completions|
    requires m2.log == m1.log + [Entered(r.comp.thrown)]
    requires m2.ctx.completions == m1.ctx.completions[site.lo := Normal]
    requires Arrives(p, m2, m3, s.handler.value, SiteOfHandler(s, site), r3) && Holds(m3.ctx.completions, s, site, r3.h)
    ensures ReachesFinally(p, m, m3, s, site, r3.After(r.log + [Entered(r.comp.thrown)]))
  {
    hide Placed;
    hide Running;
    hide InZone;
    hide InGuardZone;
    hide SameView;
    hide Arrived;
    hide Sound;
    hide Holds;
    var c, f, e := SiteOfHandler(s, site), FinallyLoc(s, site.base), [Entered(r.comp.thrown)];
    PlacedIsSound(p, s, site);
    HandlerViews(p, s, site);
    ArrivedElsewhere(p, m3, r3, c, c.base, c.lo, LoOfFinalizer(s, site.lo), f,
                     LastGuarded(s, site), site.lo + 1, site.lo + Count(s), f);
    ArrivedAfter(p, m3, r3, r.log + e, c, SiteOfGuarded(s, site), LastGuarded(s, site), site.lo + 1,
                 site.lo + Count(s), f);
    assert m.log + r.log + e + r3.log == m.log + (r.log + e + r3.log);
  }

  /** The handler does not run. */
  lemma SkipHandler(p: Program, s: Stmt, site: Site, m: Machine, m1: Machine, r: Result) returns (m': Machine, n: nat)
    requires s.Try? && Placed(p, s, site) && !(r.comp.Throwing? && s.handler.Some?) && m1.ctx.Valid()
    requires Arrives(p, m, m1, s.guarded, SiteOfGuarded(s, site), r) && Holds(m1.ctx.completions, s, site, r.h)
    ensures Leads(p, m1, n, m') && ReachesFinally(p, m, m', s, site, r)
  {
    hide Holds;
    hide Placed;
    hide Untouched;
    hide Arrived;
    UntouchedWithin(m.ctx.completions, m1.ctx.completions, site.lo + 1, LoOfHandler(s, site.lo), site.lo,
                    LoOfFinalizer(s, site.lo));
    m', n := PastHandler(p, s, site, m1, r);
  }

  lemma PastHandler(p: Program, s: Stmt, site: Site, m1: Machine, r: Result) returns (m': Machine, n: nat)
    requires s.Try? && Placed(p, s, site) && !(r.comp.Throwing? && s.handler.Some?) && m1.ctx.Valid()
    requires Arrived(p, m1, r, SiteOfGuarded(s, site), site.base + 1, site.lo + 1, LoOfHandler(s, site.lo),
                     EndOfGuarded(s, site))
    ensures Leads(p, m1, n, m') && SameSoFar(m1, m')
    ensures Arrived(p, m', r, SiteOfGuarded(s, site), LastGuarded(s, site), site.lo + 1, site.lo + Count(s),
                    FinallyLoc(s, site.base))
  {
    hide Seen;
    hide SameView;
    hide SameGuardView;
    hide InZone;
    hide InGuardZone;
    hide EntriesAt;
    hide Code;
    var g, a, hi := SiteOfGuarded(s, site), LastGuarded(s, site), site.lo + Count(s);
    GuardedViews(p, s, site);
    if r.comp == Normally && s.handler.Some? {
      HandlerAt(p, s, site);
      m', n := Step(p, m1), 1;
      OneStep(p, m1);
    } else {
      m', n := m1, 0;
      if s.handler.None? {
        PlacedIsSound(p, s, site);
        ArrivedElsewhere(p, m1, r, g, g.base, g.lo, LoOfHandler(s, site.lo), EndOfGuarded(s, site),
                         a, site.lo + 1, hi, FinallyLoc(s, site.base));
      } else {
        GuardViewMoves(p, m1.ctx.prev, g.base, g.lo, LoOfHandler(s, site.lo), a, site.lo + 1, hi);
      }
    }
  }

  /** The mark at the start of the statement is a place of the guarded part. */
  lemma MarkInGuarded(p: Program, s: Stmt, site: Site)
    requires s.Try? && Placed(p, s, site)
    ensures InZone(p, At(site.base), site.base + 1, site.lo + 1, LoOfHandler(s, site.lo))
  {
    PlacedParts(p, s, site);
    OwnZones(s, site.base);
    forall i | 0 <= i < |p.entries|
      ensures ZoneOf(p.entries[i], At(site.base))
              == View(p, site.base + 1, site.lo + 1, LoOfHandler(s, site.lo), i)
    {
      if i > site.lo {
        HandlerIsInnermost(p, s, site, i);
        if i < LoOfHandler(s, site.lo) {
          FarZones(p.entries, i, site.base + 1, EndOfGuarded(s, site));
        } else if i < LoOfFinalizer(s, site.lo) {
          FarZones(p.entries, i, CatchLoc(s, site.base) + 1, FinallyLoc(s, site.base));
        } else if i < site.lo + Count(s) {
          FarZones(p.entries, i, FinallyLoc(s, site.base) + 1, site.base + Size(s));
        }
      }
    }
  }

  lemma StartsHandler(p: Program, s: Stmt, site: Site)
    requires s.Try? && s.handler.Some? && Placed(p, s, site)
    ensures var c := SiteOfHandler(s, site);
            InZone(p, At(c.base - 1), c.base, c.lo, LoOfFinalizer(s, site.lo))
  {
    hide Placed;
    hide Spread;
    hide SameView;
    hide InZone;
    var c, lo, hi, last := SiteOfHandler(s, site), site.lo + 1, site.lo + Count(s), LastGuarded(s, site);
    PlacedParts(p, s, site);
    HandlerViews(p, s, site);
    AtCatch(p, s, site);
    ViewMoves(p, At(c.base - 1), c.base - 1, lo, hi, last, lo, hi);
    ViewMoves(p, At(c.base - 1), c.base, c.lo, LoOfFinalizer(s, site.lo), last, lo, hi);
  }

  /** None of the entries of the parts sees the start of the handler. */
  lemma AtCatch(p: Program, s: Stmt, site: Site)
    requires s.Try? && s.handler.Some? && Spread(p.entries, s, site)
    ensures InZone(p, At(CatchLoc(s, site.base)), CatchLoc(s, site.base), site.lo + 1, site.lo + Count(s))
  {
    var catchLoc, hi := CatchLoc(s, site.base), site.lo + Count(s);
    forall i | 0 <= i < |p.entries|
      ensures ZoneOf(p.entries[i], At(catchLoc)) == View(p, catchLoc, site.lo + 1, hi, i)
    {
      if site.lo < i < LoOfHandler(s, site.lo) {
        FarZones(p.entries, i, site.base + 1, EndOfGuarded(s, site));
      } else if LoOfHandler(s, site.lo) <= i < LoOfFinalizer(s, site.lo) {
        FarZones(p.entries, i, catchLoc + 1, FinallyLoc(s, site.base));
      } else if LoOfFinalizer(s, site.lo) <= i < hi {
        FarZones(p.entries, i, FinallyLoc(s, site.base) + 1, site.base + Size(s));
      }
    }
  }

  // ---------------------------------------------------------------------------------------------
  // Finally blocks
  // ---------------------------------------------------------------------------------------------

  ghost predicate BeforeFinally(p: Program, m: Machine, s: Stmt, site: Site, r: Result)
    requires s.Try?
  {
    && Stops(r.comp) && Holds(m.ctx.completions, s, site, r.h)
    && Arrived(p, m, r, SiteOfGuarded(s, site), LastGuarded(s, site), site.lo + 1, site.lo + Count(s),
               FinallyLoc(s, site.base))
  }

  /** Seen from a place before the finally block, the statement's own entry is the innermost. */
  lemma OwnIsInnermost(p: Program, s: Stmt, site: Site, c: Ctx)
    requires s.Try? && s.finalizer.Some? && Placed(p, s, site) && c.entries == p.entries
    requires InZone(p, c.prev, LastGuarded(s, site), site.lo + 1, site.lo + Count(s))
    ensures Handler(c) == site.lo && ZoneOf(p.entries[site.lo], c.prev) == ToFinally
  {
    var a, lo, hi := LastGuarded(s, site), site.lo, site.lo + Count(s);
    PlacedParts(p, s, site);
    OwnZones(s, site.base);
    assert View(p, a, lo + 1, hi, lo) == ToFinally;
    forall j | lo < j < |p.entries| ensures ZoneOf(p.entries[j], c.prev) == Outside {
      if j >= hi {
        assert ZoneOf(p.entries[j], At(a)) == ZoneOf(p.entries[j], At(site.base));
      }
    }
    LastIs(c.entries, Handling(c.prev), lo);
  }

  lemma OwnGuards(p: Program, s: Stmt, site: Site, c: Ctx)
    requires s.Try? && s.finalizer.Some? && Placed(p, s, site) && c.entries == p.entries
    requires InGuardZone(p, c.prev, LastGuarded(s, site), site.lo + 1, site.lo + Count(s))
    ensures Guard(c) == site.lo
  {
    var a, lo, hi := LastGuarded(s, site), site.lo, site.lo + Count(s);
    PlacedParts(p, s, site);
    assert GuardView(p, a, lo + 1, hi, lo);
    forall j | lo < j < |p.entries| ensures !Guards(p.entries[j], c.prev) {
      if j >= hi {
        assert ZoneOf(p.entries[j], At(a)) == ZoneOf(p.entries[j], At(site.base));
        ZoneGuards(p.entries[j], At(a), |p.code|);
      }
    }
    LastIs(c.entries, Guarding(c.prev), lo);
  }

  /** The machine is at the first location of the finally block, and the reason is saved. */
  ghost predicate AtFinally(p: Program, m: Machine, m': Machine, s: Stmt, site: Site, r: Result)
    requires s.Try?
  {
    && m'.log == m.log && m'.inputs == m.inputs
    && HasTarget(r.comp, site.env)
    && site.lo < |m.ctx.completions|
    && m'.ctx.completions == (if r.comp == Normally then m.ctx.completions
                              else m.ctx.completions[site.lo := Saved(r.comp, site.env)])
    && Running(p, m', FinallyLoc(s, site.base), OnFinally(r, site.lo))
  }

  lemma ExceptionToFinally(p: Program, s: Stmt, site: Site, m: Machine, r: Result) returns (m': Machine)
    requires s.Try? && s.finalizer.Some? && Placed(p, s, site)
    requires BeforeFinally(p, m, s, site, r) && r.comp.Throwing?
    ensures Leads(p, m, 1, m') && AtFinally(p, m, m', s, site, r)
  {
    OwnHeld(m, s, site, r.h);
    hide Holds;
    hide InZone;
    hide Seen;
    OwnIsInnermost(p, s, site, m.ctx);
    PlacedParts(p, s, site);
    m' := Step(p, m);
    OneStep(p, m);
  }

  /** A return or a jump out of the statement stops at its finally block. */
  lemma AbortToFinally(p: Program, s: Stmt, site: Site, c: Ctx, record: Completion)
    requires s.Try? && s.finalizer.Some? && Placed(p, s, site) && c.entries == p.entries && c.Valid()
    requires InGuardZone(p, c.prev, LastGuarded(s, site), site.lo + 1, site.lo + Count(s))
    requires record.Return? || (record.Break? && !(site.base <= record.target < site.base + Size(s)))
    ensures Aborted(c, record) == (c.(completions := c.completions[site.lo := record], mode := NextMode,
                                       next := At(FinallyLoc(s, site.base))), None)
  {
    hide InGuardZone;
    hide Seen;
    OwnGuards(p, s, site, c);
    PlacedParts(p, s, site);
  }

  lemma ReturnToFinally(p: Program, s: Stmt, site: Site, m: Machine, r: Result) returns (m': Machine, n: nat)
    requires s.Try? && s.finalizer.Some? && Placed(p, s, site)
    requires BeforeFinally(p, m, s, site, r) && r.comp.Returning?
    ensures Leads(p, m, n, m') && AtFinally(p, m, m', s, site, r)
  {
    OwnHeld(m, s, site, r.h);
    hide Holds;
    hide InGuardZone;
    hide Placed;
    AbortToFinally(p, s, site, m.ctx, Return(r.comp.returned));
    if m.phase.Looping? {
      m', n := Step(p, m), 1;
      OneStep(p, m);
    } else {
      m', n := Step(p, Step(p, m)), 2;
      TwoSteps(p, m);
    }
  }

  lemma JumpToFinally(p: Program, s: Stmt, site: Site, m: Machine, r: Result) returns (m': Machine)
    requires s.Try? && s.finalizer.Some? && Placed(p, s, site)
    requires BeforeFinally(p, m, s, site, r) && r.comp.Jumping?
    ensures Leads(p, m, 2, m') && AtFinally(p, m, m', s, site, r)
  {
    OwnHeld(m, s, site, r.h);
    hide Holds;
    hide InGuardZone;
    hide Seen;
    assert !(site.base <= site.env[r.comp.k] < site.base + Size(s));
    AbortToFinally(p, s, site, m.ctx, Break(site.env[r.comp.k]));
    m' := Step(p, Step(p, m));
    TwoSteps(p, m);
  }

  /** However the guarded part ended, control gets to the finally block. */
  lemma ReachFinally(p: Program, s: Stmt, site: Site, m: Machine, r: Result) returns (m': Machine, n: nat)
    requires s.Try? && s.finalizer.Some? && Placed(p, s, site) && BeforeFinally(p, m, s, site, r)
    ensures Leads(p, m, n, m') && AtFinally(p, m, m', s, site, r)
  {
    OwnHeld(m, s, site, r.h);
    hide Holds;
    hide Placed;
    hide InZone;
    hide InGuardZone;
    match r.comp {
      case Normally => m', n := m, 0;
      case Throwing(_) => m' := ExceptionToFinally(p, s, site, m, r); n := 1;
      case Returning(_) => m', n := ReturnToFinally(p, s, site, m, r);
      case Jumping(_, _) => m' := JumpToFinally(p, s, site, m, r); n := 2;
    }
  }

  /** The mark leads into the finally block. */
  lemma EnterFinally(p: Program, s: Stmt, site: Site, m: Machine, r: Result) returns (m': Machine, n: nat)
    requires s.Try? && s.finalizer.Some? && Placed(p, s, site) && BeforeFinally(p, m, s, site, r)
    ensures Leads(p, m, n, m')
    ensures AtFinally(p, m, m'.(phase := Inside(FinallyLoc(s, site.base))), s, site, r)
    ensures m'.phase == Inside(FinallyLoc(s, site.base) + 1) && m'.ctx.prev == At(FinallyLoc(s, site.base))
  {
    hide Placed;
    hide BeforeFinally;
    var m1;
    m1, n := ReachFinally(p, s, site, m, r);
    MarkOfFinally(p, s, site);
    m' := Step(p, m1);
    OneStep(p, m1);
    LeadsOn(p, m, n, m1, 1, m');
    n := n + 1;
  }

  lemma MarkOfFinally(p: Program, s: Stmt, site: Site)
    requires s.Try? && s.finalizer.Some? && Placed(p, s, site)
    ensures FinallyLoc(s, site.base) < |p.code| && p.code[FinallyLoc(s, site.base)] == Mark
  {
    hide Seen;
    FinalizerAt(p, s, site);
  }

  lemma StartsFinalizer(p: Program, s: Stmt, site: Site)
    requires s.Try? && s.finalizer.Some? && Placed(p, s, site)
    ensures var f := SiteOfFinalizer(s, site);
            InZone(p, At(f.base - 1), f.base, f.lo, site.lo + Count(s))
  {
    hide Placed;
    hide SameView;
    hide InZone;
    hide Spread;
    var f, lo, hi := SiteOfFinalizer(s, site), site.lo, site.lo + Count(s);
    PlacedParts(p, s, site);
    FinalizerViews(p, s, site);
    OutOfOwn(p, s, site, f.base - 1);
    ViewMoves(p, At(f.base - 1), f.base - 1, lo, hi, site.base, lo, hi);
    ViewMoves(p, At(f.base - 1), f.base, f.lo, hi, site.base, lo, hi);
  }

  /** At the ends of the finally block none of the statement's entries matters. */
  lemma OutOfOwn(p: Program, s: Stmt, site: Site, l: nat)
    requires s.Try? && s.finalizer.Some? && Spread(p.entries, s, site)
    requires l == FinallyLoc(s, site.base) || l == site.base + Size(s) - 1
    ensures InZone(p, At(l), l, site.lo, site.lo + Count(s))
  {
    var lo, hi := site.lo, site.lo + Count(s);
    forall i | 0 <= i < |p.entries| ensures ZoneOf(p.entries[i], At(l)) == View(p, l, lo, hi, i) {
      if lo < i < LoOfHandler(s, site.lo) {
        assert Within(p.entries[i], site.base + 1, EndOfGuarded(s, site));
      } else if LoOfHandler(s, site.lo) <= i < LoOfFinalizer(s, site.lo) {
        assert Within(p.entries[i], CatchLoc(s, site.base) + 1, FinallyLoc(s, site.base));
      } else if LoOfFinalizer(s, site.lo) <= i < hi {
        assert Within(p.entries[i], FinallyLoc(s, site.base) + 1, site.base + Size(s));
      }
    }
  }

  /** At the end of a finally block, the place is one of the whole statement. */
  lemma EndsFinalizer(p: Program, s: Stmt, site: Site, prev: Place)
    requires s.Try? && s.finalizer.Some? && Placed(p, s, site)
    requires var f := SiteOfFinalizer(s, site);
             Near(p, prev, site.base + Size(s) - 1, f.base, f.lo, site.lo + Count(s))
    ensures InZone(p, prev, site.base, site.lo, site.lo + Count(s))
    ensures InGuardZone(p, prev, site.base, site.lo, site.lo + Count(s))
  {
    hide Placed;
    hide SameView;
    hide InZone;
    hide InGuardZone;
    hide Spread;
    hide AllWithin;
    var f, lo, hi, end := SiteOfFinalizer(s, site), site.lo, site.lo + Count(s), site.base + Size(s) - 1;
    PlacedIsSound(p, s, site);
    PlacedParts(p, s, site);
    FinalizerViews(p, s, site);
    if prev == At(end) {
      OutOfOwn(p, s, site, end);
      ViewMoves(p, prev, end, lo, hi, site.base, lo, hi);
    } else {
      ViewMoves(p, prev, f.base, f.lo, hi, site.base, lo, hi);
    }
    InZoneGuards(p, prev, site.base, lo, hi);
  }

  /** The machine is at the end of the finally block. */
  ghost predicate AtFinish(p: Program, m: Machine, s: Stmt, site: Site, h: Hidden)
    requires s.Try?
  {
    && Running(p, m, site.base + Size(s) - 1, h)
    && HoldsAt(m.ctx.completions, site.lo, site.env, h)
    && InZone(p, m.ctx.prev, site.base, site.lo, site.lo + Count(s))
    && InGuardZone(p, m.ctx.prev, site.base, site.lo, site.lo + Count(s))
  }

  lemma OwnFinally(p: Program, s: Stmt, site: Site, c: Ctx)
    requires s.Try? && s.finalizer.Some? && Placed(p, s, site) && c.entries == p.entries
    ensures EntryWithFinally(c, FinallyLoc(s, site.base)) == site.lo
    ensures site.lo < |p.entries| && p.entries[site.lo].afterLoc == site.base + Size(s)
    ensures site.base + Size(s) - 1 < |p.code|
    ensures p.code[site.base + Size(s) - 1] == FinishAt(FinallyLoc(s, site.base))
  {
    PlacedParts(p, s, site);
    FinalizerAt(p, s, site);
    LastIs(c.entries, FinallyAt(FinallyLoc(s, site.base)), site.lo);
  }

  /** The end of the finally block resumes what the entry holds. */
  lemma FinishFinally(p: Program, s: Stmt, site: Site, m: Machine, h: Hidden, log: seq<Event>)
    returns (m': Machine, n: nat)
    requires s.Try? && s.finalizer.Some? && Placed(p, s, site) && AtFinish(p, m, s, site, h)
    ensures Leads(p, m, n, m') && m'.log == m.log && m'.inputs == m.inputs && site.lo < |m.ctx.completions|
    ensures m'.ctx.completions == if h.Record(site.lo).Throwing? then m.ctx.completions
                                  else m.ctx.completions[site.lo := Normal]
    ensures Arrived(p, m', AfterFinished(h, site.lo, log, m.inputs), site, site.base, site.lo, site.lo + Count(s),
                    site.base + Size(s))
  {
    hide InZone;
    hide InGuardZone;
    hide Placed;
    OwnFinally(p, s, site, m.ctx);
    var comp := h.Record(site.lo);
    if comp.Throwing? || comp.Returning? || h.pending.Some? {
      m', n := Step(p, m), 1;
      OneStep(p, m);
    } else {
      m', n := Step(p, Step(p, m)), 2;
      TwoSteps(p, m);
    }
  }

  lemma FinishHolds(cs: seq<Completion>, s: Stmt, site: Site, h: Hidden, log: seq<Event>, inputs: seq<Resume>)
    requires s.Try? && Holds(cs, s, site, h) && site.lo < |cs|
    ensures Holds(if h.Record(site.lo).Throwing? then cs else cs[site.lo := Normal], s, site,
                  AfterFinished(h, site.lo, log, inputs).h)
  {
    hide Holds;
    var h' := AfterFinished(h, site.lo, log, inputs).h;
    if h.Record(site.lo).Throwing? {
      HoldsAlike(cs, s, site, h, h');
    } else {
      HoldsKept(cs, s, site, h, Normally);
      HoldsAlike(cs[site.lo := Normal], s, site, h.Keep(site.lo, Normally), h');
    }
  }

  lemma Simulate(p: Program, s: Stmt, site: Site, m: Machine, h: Hidden) returns (m': Machine, n: nat)
    requires Placed(p, s, site) && Ready(p, m, s, site, h)
    ensures Leads(p, m, n, m') && Arrives(p, m, m', s, site, Runs(s, site.lo, site.inside, h, m.inputs))
    decreases |m.inputs|, s, 2
  {
    match s {
      case Emit(_) => m', n := SimulateStraight(p, s, site, m, h);
      case Raise(_) => m', n := SimulateStraight(p, s, site, m, h);
      case Give(_) => m', n := SimulateStraight(p, s, site, m, h);
      case Jump(_) => m', n := SimulateJump(p, s, site, m, h);
      case Yield(_) => m', n := SimulateYield(p, s, site, m, h);
      case Then(_, _) => m', n := SimulateThen(p, s, site, m, h);
      case Labelled(_) => m', n := SimulateLabelled(p, s, site, m, h);
      case Loop(_) => m', n := SimulateLoop(p, s, site, m, h);
      case Try(_, _, _) => m', n := SimulateTry(p, s, site, m, h);
    }
  }

  /** A statement without a finally block is done when its guarded part and handler are. */
  lemma WithoutFinally(p: Program, s: Stmt, site: Site, m: Machine, m': Machine, r: Result)
    requires s.Try? && s.finalizer.None? && Placed(p, s, site) && ReachesFinally(p, m, m', s, site, r)
    ensures Arrives(p, m, m', s, site, r)
  {
    hide Placed;
    hide Arrived;
    hide SameView;
    hide Sound;
    var hi, end := site.lo + Count(s), site.base + Size(s);
    PlacedIsSound(p, s, site);
    NoFinalizerViews(p, s, site);
    ArrivedElsewhere(p, m', r, SiteOfGuarded(s, site), LastGuarded(s, site), site.lo + 1, hi, end,
                     site.base, site.lo, hi, end);
    ArrivedAfter(p, m', r, [], SiteOfGuarded(s, site), site, site.base, site.lo, hi, end);
    assert r.After([]) == r;
  }

  /** A direct jump and a wait pass the finally block by. */
  lemma PassesFinally(p: Program, s: Stmt, site: Site, m: Machine, m': Machine, r: Result)
    requires s.Try? && !Stops(r.comp) && ReachesFinally(p, m, m', s, site, r)
    ensures Arrives(p, m, m', s, site, r)
  {
  }

  /** The finally block runs, in whatever state it is entered. */
  lemma SimulateFinalizer(p: Program, s: Stmt, site: Site, m: Machine, m1: Machine, r: Result)
    returns (m': Machine, n: nat)
    requires s.Try? && s.finalizer.Some? && Placed(p, s, site)
    requires ReachesFinally(p, m, m1, s, site, r) && Stops(r.comp)
    ensures Leads(p, m1, n, m')
    ensures Arrives(p, m, m', s, site,
              WithFinally(r, Runs(s.finalizer.value, LoOfFinalizer(s, site.lo), site.inside, OnFinally(r, site.lo),
                                  r.inputs), site.lo))
    decreases |m1.inputs|, s, 0
  {
    hide Placed;
    hide Holds;
    hide Untouched;
    hide Arrived;
    hide Running;
    hide Leads;
    hide Spread;
    hide HoldsAt;
    var f, lo, h := SiteOfFinalizer(s, site), site.lo, OnFinally(r, site.lo);
    var m2, n2 := EnterFinally(p, s, site, m1, r);
    FinalizerReady(p, s, site, m1, m2, r);
    PlacedParts(p, s, site);
    var m3, n3 := Simulate(p, s.finalizer.value, f, m2, h);
    LeadsOn(p, m1, n2, m2, n3, m3);
    var r3 := Runs(s.finalizer.value, f.lo, site.inside, h, r.inputs);
    FinalizerHolds(p, s, site, m2, m3, h);
    UntouchedByFinally(m.ctx.completions, m1.ctx.completions, m2.ctx.completions, m3.ctx.completions, s, site);
    assert m.log + r.log + r3.log == m.log + (r.log + r3.log);
    if r3.comp == Normally {
      FinalizerFinishes(p, s, site, m3, r3);
      var m4, n4 := FinishFinally(p, s, site, m3, r3.h, r.log + r3.log);
      LeadsOn(p, m1, n2 + n3, m3, n4, m4);
      FinishHolds(m3.ctx.completions, s, site, r3.h, r.log + r3.log, r3.inputs);
      OwnUntouched(m.ctx.completions, m3.ctx.completions, m4.ctx.completions, lo, lo + Count(s));
      m', n := m4, n2 + n3 + n4;
    } else {
      FinalizerOverrides(p, s, site, m3, r, r3);
      m', n := m3, n2 + n3;
    }
  }

  lemma FinalizerReady(p: Program, s: Stmt, site: Site, m1: Machine, m2: Machine, r: Result)
    requires s.Try? && s.finalizer.Some? && Placed(p, s, site) && Holds(m1.ctx.completions, s, site, r.h)
    requires AtFinally(p, m1, m2.(phase := Inside(FinallyLoc(s, site.base))), s, site, r)
    requires m2.phase == Inside(FinallyLoc(s, site.base) + 1) && m2.ctx.prev == At(FinallyLoc(s, site.base))
    ensures Ready(p, m2, s.finalizer.value, SiteOfFinalizer(s, site), OnFinally(r, site.lo))
    ensures Holds(m2.ctx.completions, s, site, OnFinally(r, site.lo))
    ensures Untouched(m1.ctx.completions, m2.ctx.completions, site.lo, site.lo + 1)
  {
    hide Placed;
    hide InZone;
    StartsFinalizer(p, s, site);
    if r.comp != Normally {
      HoldsKept(m1.ctx.completions, s, site, r.h, r.comp);
      HoldsAlike(m2.ctx.completions, s, site, r.h.Keep(site.lo, r.comp), OnFinally(r, site.lo));
    }
  }

  lemma FinalizerHolds(p: Program, s: Stmt, site: Site, m: Machine, m1: Machine, h: Hidden)
    requires s.Try? && s.finalizer.Some? && Holds(m.ctx.completions, s, site, h)
    requires var f := SiteOfFinalizer(s, site);
             Arrives(p, m, m1, s.finalizer.value, f, Runs(s.finalizer.value, f.lo, f.inside, h, m.inputs))
    ensures var f := SiteOfFinalizer(s, site);
            Holds(m1.ctx.completions, s, site, Runs(s.finalizer.value, f.lo, f.inside, h, m.inputs).h)
  {
    hide Arrived;
    hide Untouched;
    hide SameOutside;
    hide Holds;
    var f := SiteOfFinalizer(s, site);
    KeepsOthers(s.finalizer.value, f.lo, f.inside, h, m.inputs);
    HoldsAfterFinalizer(m.ctx.completions, m1.ctx.completions, s, site, h,
                        Runs(s.finalizer.value, f.lo, f.inside, h, m.inputs).h);
  }

  lemma UntouchedByFinally(cs: seq<Completion>, cs1: seq<Completion>, cs2: seq<Completion>, cs3: seq<Completion>,
                           s: Stmt, site: Site)
    requires s.Try? && s.finalizer.Some?
    requires Untouched(cs, cs1, site.lo, LoOfFinalizer(s, site.lo)) && Untouched(cs1, cs2, site.lo, site.lo + 1)
    requires Untouched(cs2, cs3, LoOfFinalizer(s, site.lo), site.lo + Count(s))
    ensures Untouched(cs, cs3, site.lo, site.lo + Count(s))
  {
  }

  lemma OwnUntouched(cs: seq<Completion>, cs3: seq<Completion>, cs4: seq<Completion>, lo: nat, hi: nat)
    requires Untouched(cs, cs3, lo, hi) && lo < hi && lo < |cs3|
    requires cs4 == cs3 || cs4 == cs3[lo := Normal]
    ensures Untouched(cs, cs4, lo, hi)
  {
  }

  lemma FinalizerFinishes(p: Program, s: Stmt, site: Site, m: Machine, r3: Result)
    requires s.Try? && s.finalizer.Some? && Placed(p, s, site) && r3.comp == Normally
    requires Holds(m.ctx.completions, s, site, r3.h)
    requires var f := SiteOfFinalizer(s, site);
             Arrived(p, m, r3, f, f.base, f.lo, site.lo + Count(s), site.base + Size(s) - 1)
    ensures AtFinish(p, m, s, site, r3.h)
  {
    OwnHeld(m, s, site, r3.h);
    hide Holds;
    hide Placed;
    hide InZone;
    hide InGuardZone;
    hide Running;
    EndsFinalizer(p, s, site, m.ctx.prev);
  }

  lemma FinalizerOverrides(p: Program, s: Stmt, site: Site, m: Machine, r: Result, r3: Result)
    requires s.Try? && s.finalizer.Some? && Placed(p, s, site) && r3.comp != Normally
    requires var f := SiteOfFinalizer(s, site);
             Arrived(p, m, r3, f, f.base, f.lo, site.lo + Count(s), site.base + Size(s) - 1)
    ensures Arrived(p, m, r3.After(r.log), site, site.base, site.lo, site.lo + Count(s), site.base + Size(s))
  {
    hide Placed;
    hide Arrived;
    hide SameView;
    hide Sound;
    var f, hi, end := SiteOfFinalizer(s, site), site.lo + Count(s), site.base + Size(s);
    PlacedIsSound(p, s, site);
    FinalizerViews(p, s, site);
    ArrivedElsewhere(p, m, r3, f, f.base, f.lo, hi, end - 1, site.base, site.lo, hi, end);
    ArrivedAfter(p, m, r3, r.log, f, site, site.base, site.lo, hi, end);
  }

  lemma SimulateTry(p: Program, s: Stmt, site: Site, m: Machine, h: Hidden) returns (m': Machine, n: nat)
    requires s.Try? && Placed(p, s, site) && Ready(p, m, s, site, h)
    ensures Leads(p, m, n, m') && Arrives(p, m, m', s, site, Runs(s, site.lo, site.inside, h, m.inputs))
    decreases |m.inputs|, s, 1
  {
    hide Placed;
    hide ReachesFinally;
    hide Arrives;
    hide Running;
    hide Near;
    hide Holds;
    hide Leads;
    m', n := SimulateGuarded(p, s, site, m, h);
    var r := RunsGuarded(s, site.lo, site.inside, h, m.inputs);
    if s.finalizer.None? {
      WithoutFinally(p, s, site, m, m', r);
    } else if !Stops(r.comp) {
      PassesFinally(p, s, site, m, m', r);
    } else {
      var m1, n1 := m', n;
      ReachesInputs(p, m, m1, s, site, r);
      var m2, n2 := SimulateFinalizer(p, s, site, m, m1, r);
      LeadsOn(p, m, n1, m1, n2, m2);
      m', n := m2, n1 + n2;
    }
  }

  lemma ReachesInputs(p: Program, m: Machine, m': Machine, s: Stmt, site: Site, r: Result)
    requires s.Try? && ReachesFinally(p, m, m', s, site, r)
    ensures m'.inputs == r.inputs
  {
  }
}
