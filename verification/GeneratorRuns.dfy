/** Whole runs of a compiled generator, from its creation to the last call. */
module GeneratorRuns {
  import opened GeneratorContext
  import opened GeneratorMachine
  import opened GeneratorPrograms
  import opened GeneratorRecords
  import opened GeneratorSimulation
  import opened GeneratorSites
  import opened Wrappers

  // ---------------------------------------------------------------------------------------------
  // A return before the start
  // ---------------------------------------------------------------------------------------------

  /** A return is about to look for a finally block from the first location of a statement. */
  ghost predicate Opening(p: Program, m: Machine, s: Stmt, site: Site, v: Value, h: Hidden) {
    && Leaving(p, m, v, h.rval)
    && m.ctx.prev == At(site.base)
    && Holds(m.ctx.completions, s, site, h)
  }

  /** Where its try statements are does not change. */
  lemma {:induction false} OpenedCount(s: Stmt, v: Value)
    requires StartsGuarded(s)
    ensures Count(Opened(s, v)) == Count(s)
  {
    match s {
      case Then(first, _) => OpenedCount(first, v);
      case Labelled(body) => OpenedCount(body, v);
      case Try(guarded, _, _) => assert Count(Then(Give(v), guarded)) == Count(guarded);
    }
  }

  /** The return goes through the first finally block, and the program goes on from there. */
  lemma SimulateOpened(p: Program, s: Stmt, site: Site, m: Machine, v: Value, h: Hidden)
    returns (m': Machine, n: nat)
    requires Placed(p, s, site) && StartsGuarded(s) && Opening(p, m, s, site, v, h)
    ensures Leads(p, m, n, m') && Arrives(p, m, m', s, site, Runs(Opened(s, v), site.lo, site.inside, h, m.inputs))
    decreases s
  {
    hide Placed;
    hide Leaving;
    hide Arrives;
    hide Leads;
    hide Runs;
    match s {
      case Then(first, second) =>
        FirstOpening(p, s, site, m, v, h);
        var m1, n1 := SimulateOpened(p, first, site, m, v, h);
        var r := Runs(Opened(first, v), site.lo, site.inside, h, m.inputs);
        SecondUnopened(p, s, site, m, m1, v, h);
        LeadsValid(p, m, n1, m1);
        var m2, n2 := SimulateRest(p, s, site, m, m1, r);
        LeadsOn(p, m, n1, m1, n2, m2);
        m', n := m2, n1 + n2;
        OpenedCount(first, v);
        RunsOfThen(Opened(s, v), site.lo, site.inside, h, m.inputs);
      case Labelled(body) =>
        PlacedBody(p, s, site);
        m', n := SimulateOpened(p, body, SiteOfBody(s, site), m, v, h);
        OpenedAtLabel(p, s, site, m, m', Runs(Opened(body, v), site.lo, Deeper(site.inside), h, m.inputs));
        RunsOfLabelled(Opened(s, v), site.lo, site.inside, h, m.inputs);
      case Try(_, _, _) =>
        m', n := SimulateOpenedTry(p, s, site, m, v, h);
    }
  }

  lemma FirstOpening(p: Program, s: Stmt, site: Site, m: Machine, v: Value, h: Hidden)
    requires s.Then? && Placed(p, s, site) && Opening(p, m, s, site, v, h)
    ensures Placed(p, s.first, site) && Opening(p, m, s.first, site, v, h)
  {
    hide Placed;
    hide Leaving;
    hide HoldsAt;
    PlacedThen(p, s, site);
  }

  lemma SecondUnopened(p: Program, s: Stmt, site: Site, m: Machine, m1: Machine, v: Value, h: Hidden)
    requires s.Then? && StartsGuarded(s.first) && Holds(m.ctx.completions, s, site, h)
    requires Arrives(p, m, m1, s.first, site, Runs(Opened(s.first, v), site.lo, site.inside, h, m.inputs))
    ensures Holds(m1.ctx.completions, s.second, SiteOfSecond(s, site),
                  Runs(Opened(s.first, v), site.lo, site.inside, h, m.inputs).h)
  {
    hide Arrived;
    hide Untouched;
    hide SameOutside;
    hide Runs;
    OpenedCount(s.first, v);
    KeepsOthers(Opened(s.first, v), site.lo, site.inside, h, m.inputs);
    HoldsStill(m.ctx.completions, m1.ctx.completions, s.second, SiteOfSecond(s, site), h,
               Runs(Opened(s.first, v), site.lo, site.inside, h, m.inputs).h, site.lo, site.lo + Count(s.first));
  }

  lemma OpenedAtLabel(p: Program, s: Stmt, site: Site, m: Machine, m': Machine, r: Result)
    requires s.Labelled? && Arrives(p, m, m', s.body, SiteOfBody(s, site), r)
    ensures Arrives(p, m, m', s, site, r.AtLabel())
  {
    hide Arrived;
    hide Untouched;
    ArrivedAtLabel(p, m', r, s, site);
  }

  lemma SimulateOpenedTry(p: Program, s: Stmt, site: Site, m: Machine, v: Value, h: Hidden)
    returns (m': Machine, n: nat)
    requires s.Try? && s.finalizer.Some? && Placed(p, s, site) && Opening(p, m, s, site, v, h)
    ensures Leads(p, m, n, m') && Arrives(p, m, m', s, site, Runs(Opened(s, v), site.lo, site.inside, h, m.inputs))
  {
    hide Placed;
    hide Sound;
    hide InZone;
    hide InGuardZone;
    hide SameGuardView;
    var g, lo, hi := SiteOfGuarded(s, site), site.lo + 1, site.lo + Count(s);
    var m1 := LoOfHandler(s, site.lo);
    PlacedIsSound(p, s, site);
    MarkInGuarded(p, s, site);
    ZoneGives(p, m.ctx.prev, g.base, lo, m1);
    GuardedViews(p, s, site);
    GuardViewMoves(p, m.ctx.prev, g.base, lo, m1, LastGuarded(s, site), lo, hi);
    var r := Result([], Returning(v), h, m.inputs);
    assert Untouched(m.ctx.completions, m.ctx.completions, lo, hi);
    assert ReachesFinally(p, m, m, s, site, r);
    m', n := SimulateFinalizer(p, s, site, m, m, r);
    OpenedRuns(s, site.lo, site.inside, v, h, m.inputs);
  }

  lemma OpenedRuns(s: Stmt, lo: nat, inside: Option<nat>, v: Value, h: Hidden, inputs: seq<Resume>)
    requires s.Try? && s.finalizer.Some?
    ensures var r := Result([], Returning(v), h, inputs);
            var f := Runs(s.finalizer.value, LoOfFinalizer(s, lo), inside, OnFinally(r, lo), inputs);
            RunsGuarded(Opened(s, v), lo, inside, h, inputs) == r
            && Runs(Opened(s, v), lo, inside, h, inputs) == WithFinally(r, f, lo)
  {
    var t, r := Opened(s, v), Result([], Returning(v), h, inputs);
    OpenedCount(s, v);
    assert Runs(Give(v), lo + 1, Some(0), h, inputs) == r;
    assert Runs(Then(Give(v), s.guarded), lo + 1, Some(0), h, inputs) == r;
    assert RunsGuarded(t, lo, inside, h, inputs) == r;
    assert LoOfFinalizer(t, lo) == LoOfFinalizer(s, lo);
  }

  lemma ZoneGives(p: Program, prev: Place, base: nat, lo: nat, hi: nat)
    requires Sound(p) && InZone(p, prev, base, lo, hi)
    ensures InGuardZone(p, prev, base, lo, hi)
  {
    InZoneGuards(p, prev, base, lo, hi);
  }

  /** Otherwise no finally block guards the first location. */
  lemma {:induction false} StartIsFree(s: Stmt, base: nat, labels: nat)
    requires Scoped(s, labels) && !StartsGuarded(s)
    ensures forall i | 0 <= i < Count(s) :: !Guards(Entries(s, base)[i], At(base))
    decreases s
  {
    match s {
      case Then(first, second) =>
        StartIsFree(first, base, labels);
        EntriesWithin(second, base + Size(first), labels);
        var es, fs := Entries(first, base), Entries(second, base + Size(first));
        forall i | 0 <= i < Count(s) ensures !Guards(Entries(s, base)[i], At(base)) {
          assert Entries(s, base)[i] == if i < |es| then es[i] else fs[i - |es|];
        }
      case Labelled(body) =>
        StartIsFree(body, base, labels + 1);
      case Loop(body) =>
        EntriesWithin(body, base + 1, labels + 1);
      case Try(_, _, _) =>
        PartsWithin(s, base, labels);
        forall i | 0 <= i < Count(s) ensures !Guards(Entries(s, base)[i], At(base)) {
          assert Entries(s, base)[i] == if i == 0 then Entry(s, base) else PartsEntries(s, base)[i - 1];
        }
      case _ =>
    }
  }

  // ---------------------------------------------------------------------------------------------
  // The end of a run
  // ---------------------------------------------------------------------------------------------

  /** The generator is over and every call has been answered, with `log` to show for it. */
  ghost predicate Answered(m: Machine, log: seq<Event>) {
    m.phase.Idle? && m.inputs == [] && m.log == log
  }

  /** Control is outside a generator that is over. */
  ghost predicate Closed(m: Machine) {
    m.ctx.Valid() && m.phase.Idle? && m.state.Over?
  }

  /** Once over, a generator answers every call with `undefined` or with the exception thrown into it,
      and stays over. */
  lemma {:induction false} StaysOver(p: Program, m: Machine) returns (m': Machine)
    requires Closed(m)
    ensures Leads(p, m, |m.inputs|, m') && Answered(m', m.log + AfterEnd(m.inputs)) && Closed(m')
    decreases |m.inputs|
  {
    if m.inputs == [] {
      m' := m;
    } else {
      var m1 := Step(p, m);
      m' := StaysOver(p, m1);
      OneStep(p, m);
      LeadsOn(p, m, 1, m1, |m1.inputs|, m');
      assert m1.log + AfterEnd(m1.inputs) == m.log + AfterEnd(m.inputs);
    }
  }

  /** From the end of a run to the answers to all further calls. */
  lemma Closes(p: Program, m: Machine, n: nat, m1: Machine, answer: Event)
    returns (m': Machine, n': nat)
    requires Leads(p, m, n, m1) && Closed(m1) && m1.log == m.log + [answer] && m1.inputs == m.inputs
    ensures Leads(p, m, n', m') && Answered(m', m.log + ([answer] + AfterEnd(m.inputs)))
  {
    m' := StaysOver(p, m1);
    n' := n + |m1.inputs|;
    LeadsOn(p, m, n, m1, |m1.inputs|, m');
    assert m.log + [answer] + AfterEnd(m.inputs) == m.log + ([answer] + AfterEnd(m.inputs));
  }

  lemma ThreeSteps(p: Program, m: Machine)
    requires m.ctx.Valid()
    ensures Leads(p, m, 3, Step(p, Step(p, Step(p, m))))
  {
    TwoSteps(p, m);
    var m2 := Step(p, Step(p, m));
    OneStep(p, m2);
    LeadsOn(p, m, 2, m2, 1, Step(p, m2));
  }

  /** Falling off the end. */
  lemma EndsNormally(p: Program, m: Machine, h: Hidden) returns (m': Machine, n: nat)
    requires Running(p, m, |p.code|, h)
    ensures Leads(p, m, n, m') && Answered(m', m.log + ([Done(h.rval)] + AfterEnd(m.inputs)))
  {
    OneStep(p, m);
    m', n := Closes(p, m, 1, Step(p, m), Done(h.rval));
  }

  /** An exception that no entry handles reaches the caller with its own value. */
  lemma EndsThrowing(p: Program, m: Machine, v: Value, rval: Value) returns (m': Machine, n: nat)
    requires Raising(p, m, v, rval) && InZone(p, m.ctx.prev, 0, 0, |p.entries|)
    ensures Leads(p, m, n, m') && Answered(m', m.log + ([Thrown(v)] + AfterEnd(m.inputs)))
  {
    LastIs(p.entries, Handling(m.ctx.prev), -1);
    var m1 := Step(p, m);
    assert m1.phase == Inside(|p.code|) && m1.ctx.root == Throw(v);
    var m2 := Step(p, m1);
    assert m2.phase.Looping? && m2.state.Over? && m2.ctx.done && m2.ctx.arg == v;
    ThreeSteps(p, m);
    m', n := Closes(p, m, 3, Step(p, m2), Thrown(v));
  }

  /** A return that no finally block stops finishes the generator with its own value. */
  lemma EndsReturning(p: Program, m: Machine, v: Value, rval: Value) returns (m': Machine, n: nat)
    requires Leaving(p, m, v, rval) && InGuardZone(p, m.ctx.prev, 0, 0, |p.entries|)
    ensures Leads(p, m, n, m') && Answered(m', m.log + ([Done(v)] + AfterEnd(m.inputs)))
  {
    LastIs(p.entries, Guarding(m.ctx.prev), -1);
    var m1, n1 := m, 0;
    if m.phase.Inside? {
      m1, n1 := Step(p, m), 1;
      OneStep(p, m);
    }
    assert m1.phase.Looping? && m1.ctx.mode.ReturnMode? && m1.ctx.arg == v && m1.ctx.prev == m.ctx.prev;
    TwoSteps(p, m1);
    LeadsOn(p, m, n1, m1, 2, Step(p, Step(p, m1)));
    m', n := Closes(p, m, n1 + 2, Step(p, Step(p, m1)), Done(v));
  }

  // ---------------------------------------------------------------------------------------------
  // Whole runs
  // ---------------------------------------------------------------------------------------------

  function Whole(): Site {
    Site(0, 0, [], -1, None)
  }

  lemma CompiledSize(s: Stmt)
    requires Scoped(s, 0)
    ensures |Compile(s).code| == Size(s) && |Compile(s).entries| == Count(s)
  {
  }

  lemma Joined<T>(a: seq<T>, b: seq<T>, c: seq<T>)
    ensures a + b + c == a + (b + c)
  {
  }

  lemma EndsRun(s: Stmt, m: Machine, m1: Machine, r: Result) returns (m': Machine, n: nat)
    requires Scoped(s, 0) && Arrives(Compile(s), m, m1, s, Whole(), r) && (r.comp.Waiting? ==> r.inputs == [])
    requires !r.comp.Spinning?
    ensures Leads(Compile(s), m1, n, m') && Answered(m', m.log + (r.log + Ends(r)))
  {
    hide Compile;
    hide Scoped;
    hide Size;
    hide Count;
    hide InZone;
    hide InGuardZone;
    hide Running;
    hide Raising;
    hide Leaving;
    hide Leads;
    hide AfterEnd;
    hide Untouched;
    var p := Compile(s);
    CompiledSize(s);
    Joined(m.log, r.log, Ends(r));
    match r.comp {
      case Normally => m', n := EndsNormally(p, m1, r.h);
      case Throwing(v) => m', n := EndsThrowing(p, m1, v, r.h.rval);
      case Returning(v) => m', n := EndsReturning(p, m1, v, r.h.rval);
      case Jumping(_, _) =>
      case Waiting =>
        m', n := m1, 0;
        NoSteps(p, m1);
    }
  }

  /** The call that gets a new generator going. */
  lemma FirstCall(s: Stmt, inputs: seq<Resume>) returns (m: Machine)
    requires Scoped(s, 0) && inputs != []
    ensures var p, first := Compile(s), inputs[0];
            && Leads(p, Start(p, inputs), 1, m) && m.log == [] && m.inputs == inputs[1..] && m.phase.Looping?
            && m.state.SuspendedStart?
            && m.ctx == Initial(p.entries).(mode := first.mode, arg := first.arg)
            && Holds(m.ctx.completions, s, Whole(), NothingHidden())
  {
    m := Step(Compile(s), Start(Compile(s), inputs));
    OneStep(Compile(s), Start(Compile(s), inputs));
    HoldsNothing(m.ctx.completions, s, Whole(), NothingHidden());
  }

  lemma RunsFromNext(s: Stmt, inputs: seq<Resume>) returns (m: Machine, n: nat)
    requires Scoped(s, 0) && inputs != [] && inputs[0].mode.NextMode? && !Run(s, inputs[1..]).comp.Spinning?
    ensures Leads(Compile(s), Start(Compile(s), inputs), n, m) && Answered(m, RunLog(s, inputs[1..]))
  {
    hide Leads;
    hide Arrives;
    hide Untouched;
    hide Placed;
    hide InZone;
    hide Arrived;
    hide Holds;
    var p, h, r := Compile(s), NothingHidden(), Run(s, inputs[1..]);
    PlacedWhole(s);
    var m1 := FirstCall(s, inputs);
    var m2 := Step(p, m1);
    OneStep(p, m1);
    var m3, n3 := Simulate(p, s, Whole(), m2, h);
    var m4, n4 := EndsRun(s, m2, m3, r);
    LeadsOn(p, Start(p, inputs), 1, m1, 1, m2);
    LeadsOn(p, Start(p, inputs), 2, m2, n3, m3);
    LeadsOn(p, Start(p, inputs), 2 + n3, m3, n4, m4);
    m, n := m4, 2 + n3 + n4;
  }

  lemma RunsFromReturn(s: Stmt, inputs: seq<Resume>) returns (m: Machine, n: nat)
    requires Scoped(s, 0) && inputs != [] && inputs[0].mode.ReturnMode?
    requires StartsGuarded(s) ==> !Run(Opened(s, inputs[0].arg), inputs[1..]).comp.Spinning?
    ensures Leads(Compile(s), Start(Compile(s), inputs), n, m) && Answered(m, RuntimeLog(s, inputs))
  {
    hide Runs;
    hide Untouched;
    hide Arrives;
    hide Leads;
    hide Placed;
    hide InZone;
    hide Arrived;
    hide Guards;
    hide Holds;
    var p, h, v := Compile(s), NothingHidden(), inputs[0].arg;
    var m1 := FirstCall(s, inputs);
    if StartsGuarded(s) {
      PlacedWhole(s);
      var m2, n2 := SimulateOpened(p, s, Whole(), m1, v, h);
      var m3, n3 := EndsRun(s, m1, m2, Run(Opened(s, v), inputs[1..]));
      LeadsOn(p, Start(p, inputs), 1, m1, n2, m2);
      LeadsOn(p, Start(p, inputs), 1 + n2, m2, n3, m3);
      m, n := m3, 1 + n2 + n3;
    } else {
      StartIsFree(s, 0, 0);
      var m2, n2 := EndsReturning(p, m1, v, Undefined);
      LeadsOn(p, Start(p, inputs), 1, m1, n2, m2);
      m, n := m2, 1 + n2;
    }
  }

  lemma RunsFromThrow(s: Stmt, inputs: seq<Resume>) returns (m: Machine, n: nat)
    requires Scoped(s, 0) && inputs != [] && inputs[0].mode.ThrowMode?
    ensures Leads(Compile(s), Start(Compile(s), inputs), n, m) && Answered(m, RuntimeLog(s, inputs))
  {
    var p := Compile(s);
    var m1 := FirstCall(s, inputs);
    OneStep(p, m1);
    var m2, n2 := Closes(p, m1, 1, Step(p, m1), Thrown(inputs[0].arg));
    LeadsOn(p, Start(p, inputs), 1, m1, n2, m2);
    m, n := m2, 1 + n2;
  }

  /** Every compiled program, called in whatever way, answers all calls unless a loop goes round without
      waiting for one, and what it shows is what the structured semantics of the runtime says. */
  lemma CompiledRuns(s: Stmt, inputs: seq<Resume>) returns (n: nat)
    requires Scoped(s, 0) && !SpinsOn(s, inputs)
    ensures Answered(Steps(Compile(s), Start(Compile(s), inputs), n), RuntimeLog(s, inputs))
  {
    var m;
    if inputs == [] {
      n := 0;
    } else {
      match inputs[0].mode {
        case NextMode => m, n := RunsFromNext(s, inputs);
        case ThrowMode => m, n := RunsFromThrow(s, inputs);
        case ReturnMode => m, n := RunsFromReturn(s, inputs);
      }
    }
  }

  /** An answered run goes no further. */
  lemma {:induction false} AnsweredStays(p: Program, m: Machine, n: nat)
    requires m.ctx.Valid() && m.phase.Idle? && m.inputs == []
    ensures Steps(p, m, n) == m
  {
    if n > 0 {
      AnsweredStays(p, m, n - 1);
    }
  }

  // ---------------------------------------------------------------------------------------------
  // Fewer calls
  // ---------------------------------------------------------------------------------------------

  /** A statement that ends takes no notice of the calls after those it has taken. */
  lemma {:induction false} RunsWithMore(s: Stmt, lo: nat, inside: Option<nat>, h: Hidden, inputs: seq<Resume>,
                                        more: seq<Resume>)
    requires !Runs(s, lo, inside, h, inputs).comp.Waiting?
    ensures var r := Runs(s, lo, inside, h, inputs);
            Runs(s, lo, inside, h, inputs + more) == r.(inputs := r.inputs + more)
    decreases |inputs|, s, 1
  {
    match s {
      case Yield(_) => assert (inputs + more)[1..] == inputs[1..] + more;
      case Then(_, _) => ThenWithMore(s, lo, inside, h, inputs, more);
      case Labelled(body) => RunsWithMore(body, lo, Deeper(inside), h, inputs, more);
      case Loop(_) => LoopWithMore(s, lo, inside, h, inputs, more);
      case Try(_, _, _) => TryWithMore(s, lo, inside, h, inputs, more);
      case _ =>
    }
  }

  lemma {:induction false} ThenWithMore(s: Stmt, lo: nat, inside: Option<nat>, h: Hidden, inputs: seq<Resume>,
                                        more: seq<Resume>)
    requires s.Then? && !Runs(s, lo, inside, h, inputs).comp.Waiting?
    ensures var r := Runs(s, lo, inside, h, inputs);
            Runs(s, lo, inside, h, inputs + more) == r.(inputs := r.inputs + more)
    decreases |inputs|, s, 0
  {
    hide Runs;
    RunsOfThen(s, lo, inside, h, inputs);
    RunsOfThen(s, lo, inside, h, inputs + more);
    var r := Runs(s.first, lo, inside, h, inputs);
    RunsWithMore(s.first, lo, inside, h, inputs, more);
    if r.comp == Normally {
      RunsWithMore(s.second, lo + Count(s.first), inside, r.h, r.inputs, more);
    }
  }

  lemma {:induction false} LoopWithMore(s: Stmt, lo: nat, inside: Option<nat>, h: Hidden, inputs: seq<Resume>,
                                        more: seq<Resume>)
    requires s.Loop? && !Runs(s, lo, inside, h, inputs).comp.Waiting?
    ensures var r := Runs(s, lo, inside, h, inputs);
            Runs(s, lo, inside, h, inputs + more) == r.(inputs := r.inputs + more)
    decreases |inputs|, s, 0
  {
    hide Runs;
    RunsOfLoop(s, lo, inside, h, inputs);
    RunsOfLoop(s, lo, inside, h, inputs + more);
    var r := Runs(s.body, lo, Deeper(inside), h, inputs);
    RunsWithMore(s.body, lo, Deeper(inside), h, inputs, more);
    if r.AtLabel().comp == Normally && |r.inputs| < |inputs| {
      RunsWithMore(s, lo, inside, r.h, r.inputs, more);
    }
  }

  lemma {:induction false} TryWithMore(s: Stmt, lo: nat, inside: Option<nat>, h: Hidden, inputs: seq<Resume>,
                                       more: seq<Resume>)
    requires s.Try? && !Runs(s, lo, inside, h, inputs).comp.Waiting?
    ensures var r := Runs(s, lo, inside, h, inputs);
            Runs(s, lo, inside, h, inputs + more) == r.(inputs := r.inputs + more)
    decreases |inputs|, s, 0, 1
  {
    hide Runs;
    hide RunsGuarded;
    RunsOfTry(s, lo, inside, h, inputs);
    RunsOfTry(s, lo, inside, h, inputs + more);
    var c, end := RunsGuarded(s, lo, inside, h, inputs), LoOfFinalizer(s, lo);
    GuardedWithMore(s, lo, inside, h, inputs, more);
    if s.finalizer.Some? && Stops(c.comp) {
      RunsWithMore(s.finalizer.value, end, inside, OnFinally(c, lo), c.inputs, more);
      assert OnFinally(c.(inputs := c.inputs + more), lo) == OnFinally(c, lo);
    }
  }

  lemma {:induction false} GuardedWithMore(s: Stmt, lo: nat, inside: Option<nat>, h: Hidden, inputs: seq<Resume>,
                                           more: seq<Resume>)
    requires s.Try? && !RunsGuarded(s, lo, inside, h, inputs).comp.Waiting?
    ensures var r := RunsGuarded(s, lo, inside, h, inputs);
            RunsGuarded(s, lo, inside, h, inputs + more) == r.(inputs := r.inputs + more)
    decreases |inputs|, s, 0, 0
  {
    hide Runs;
    hide RunsGuarded;
    RunsOfGuarded(s, lo, inside, h, inputs);
    RunsOfGuarded(s, lo, inside, h, inputs + more);
    var g := Runs(s.guarded, lo + 1, Inner(s, inside), h, inputs);
    RunsWithMore(s.guarded, lo + 1, Inner(s, inside), h, inputs, more);
    if g.comp.Throwing? && s.handler.Some? {
      RunsWithMore(s.handler.value, LoOfHandler(s, lo), Inner(s, inside), OnHandler(g, lo), g.inputs, more);
    }
  }

  /** What spins with fewer calls spins with more. */
  lemma FewerCalls(s: Stmt, calls: seq<Resume>, n: nat)
    requires n <= |calls| && !SpinsOn(s, calls)
    ensures !SpinsOn(s, calls[..n])
  {
    if n > 0 {
      assert calls == calls[..n] + calls[n..];
      assert calls[1..] == calls[..n][1..] + calls[n..];
      var few, more := calls[..n][1..], calls[n..];
      match calls[0].mode {
        case NextMode =>
          if Run(s, few).comp.Spinning? {
            RunsWithMore(s, 0, None, NothingHidden(), few, more);
          }
        case ReturnMode =>
          if Run(Opened(s, calls[0].arg), few).comp.Spinning? {
            RunsWithMore(Opened(s, calls[0].arg), 0, None, NothingHidden(), few, more);
          }
        case ThrowMode =>
      }
    }
  }

  // ---------------------------------------------------------------------------------------------
  // Loops that wait
  // ---------------------------------------------------------------------------------------------

  /** However it ends, the statement waits for a call first. */
  predicate Waits(s: Stmt) {
    match s
    case Yield(_) => true
    case Then(first, second) => Waits(first) || (first.Emit? && Waits(second))
    case Labelled(body) => Waits(body)
    case Loop(body) => Waits(body)
    case Try(guarded, _, _) => Waits(guarded)
    case _ => false
  }

  /** Every loop waits for a call in each round. */
  predicate LoopsWait(s: Stmt) {
    match s
    case Then(first, second) => LoopsWait(first) && LoopsWait(second)
    case Labelled(body) => LoopsWait(body)
    case Loop(body) => Waits(body) && LoopsWait(body)
    case Try(guarded, handler, finalizer) =>
      && LoopsWait(guarded)
      && (handler.Some? ==> LoopsWait(handler.value))
      && (finalizer.Some? ==> LoopsWait(finalizer.value))
    case _ => true
  }

  lemma {:induction false} WaitsTakes(s: Stmt, lo: nat, inside: Option<nat>, h: Hidden, inputs: seq<Resume>)
    requires Waits(s)
    ensures var r := Runs(s, lo, inside, h, inputs); |r.inputs| < |inputs| || r.comp.Waiting?
    decreases s
  {
    match s {
      case Then(first, second) =>
        var r := Runs(first, lo, inside, h, inputs);
        if Waits(first) {
          WaitsTakes(first, lo, inside, h, inputs);
        } else {
          WaitsTakes(second, lo + Count(first), inside, r.h, r.inputs);
        }
      case Labelled(body) =>
        WaitsTakes(body, lo, Deeper(inside), h, inputs);
      case Loop(body) =>
        WaitsTakes(body, lo, Deeper(inside), h, inputs);
      case Try(guarded, _, _) =>
        WaitsTakes(guarded, lo + 1, Inner(s, inside), h, inputs);
      case _ =>
    }
  }

  lemma {:induction false} NeverSpins(s: Stmt, lo: nat, inside: Option<nat>, h: Hidden, inputs: seq<Resume>)
    requires LoopsWait(s)
    ensures !Runs(s, lo, inside, h, inputs).comp.Spinning?
    decreases |inputs|, s, 1
  {
    match s {
      case Then(_, _) => NeverSpinsThen(s, lo, inside, h, inputs);
      case Labelled(body) => NeverSpins(body, lo, Deeper(inside), h, inputs);
      case Loop(_) => NeverSpinsLoop(s, lo, inside, h, inputs);
      case Try(_, _, _) => NeverSpinsTry(s, lo, inside, h, inputs);
      case _ =>
    }
  }

  lemma {:induction false} NeverSpinsThen(s: Stmt, lo: nat, inside: Option<nat>, h: Hidden, inputs: seq<Resume>)
    requires s.Then? && LoopsWait(s)
    ensures !Runs(s, lo, inside, h, inputs).comp.Spinning?
    decreases |inputs|, s, 0
  {
    hide Runs;
    RunsOfThen(s, lo, inside, h, inputs);
    var r := Runs(s.first, lo, inside, h, inputs);
    NeverSpins(s.first, lo, inside, h, inputs);
    NeverSpins(s.second, lo + Count(s.first), inside, r.h, r.inputs);
  }

  lemma {:induction false} NeverSpinsLoop(s: Stmt, lo: nat, inside: Option<nat>, h: Hidden, inputs: seq<Resume>)
    requires s.Loop? && LoopsWait(s)
    ensures !Runs(s, lo, inside, h, inputs).comp.Spinning?
    decreases |inputs|, s, 0
  {
    hide Runs;
    RunsOfLoop(s, lo, inside, h, inputs);
    var r := Runs(s.body, lo, Deeper(inside), h, inputs);
    NeverSpins(s.body, lo, Deeper(inside), h, inputs);
    WaitsTakes(s.body, lo, Deeper(inside), h, inputs);
    if |r.inputs| < |inputs| {
      NeverSpins(s, lo, inside, r.h, r.inputs);
    }
  }

  lemma {:induction false} NeverSpinsTry(s: Stmt, lo: nat, inside: Option<nat>, h: Hidden, inputs: seq<Resume>)
    requires s.Try? && LoopsWait(s)
    ensures !Runs(s, lo, inside, h, inputs).comp.Spinning?
    decreases |inputs|, s, 0, 1
  {
    hide Runs;
    hide RunsGuarded;
    RunsOfTry(s, lo, inside, h, inputs);
    NeverSpinsGuarded(s, lo, inside, h, inputs);
    if s.finalizer.Some? {
      var c := RunsGuarded(s, lo, inside, h, inputs);
      NeverSpins(s.finalizer.value, LoOfFinalizer(s, lo), inside, OnFinally(c, lo), c.inputs);
    }
  }

  lemma {:induction false} NeverSpinsGuarded(s: Stmt, lo: nat, inside: Option<nat>, h: Hidden, inputs: seq<Resume>)
    requires s.Try? && LoopsWait(s)
    ensures !RunsGuarded(s, lo, inside, h, inputs).comp.Spinning?
    decreases |inputs|, s, 0, 0
  {
    hide Runs;
    RunsOfGuarded(s, lo, inside, h, inputs);
    var g := Runs(s.guarded, lo + 1, Inner(s, inside), h, inputs);
    NeverSpins(s.guarded, lo + 1, Inner(s, inside), h, inputs);
    if s.handler.Some? {
      NeverSpins(s.handler.value, LoOfHandler(s, lo), Inner(s, inside), OnHandler(g, lo), g.inputs);
    }
  }

  lemma {:induction false} OpenedLoopsWait(s: Stmt, v: Value)
    requires LoopsWait(s)
    ensures LoopsWait(Opened(s, v))
  {
    match s {
      case Then(first, _) => OpenedLoopsWait(first, v);
      case Labelled(body) => OpenedLoopsWait(body, v);
      case Try(guarded, _, _) => assert LoopsWait(Then(Give(v), guarded));
      case _ =>
    }
  }

  /** If every loop waits for a call in each round, the program answers all calls. */
  lemma WaitingLoopsAnswer(s: Stmt, inputs: seq<Resume>) returns (n: nat)
    requires Scoped(s, 0) && LoopsWait(s)
    ensures !SpinsOn(s, inputs)
    ensures Answered(Steps(Compile(s), Start(Compile(s), inputs), n), RuntimeLog(s, inputs))
  {
    hide Scoped;
    hide RuntimeLog;
    if inputs != [] {
      NeverSpins(s, 0, None, NothingHidden(), inputs[1..]);
      OpenedLoopsWait(s, inputs[0].arg);
      NeverSpins(Opened(s, inputs[0].arg), 0, None, NothingHidden(), inputs[1..]);
    }
    n := CompiledRuns(s, inputs);
  }
}
