/** Where the runtime departs from the language standard. */
module GeneratorDepartures {
  import opened GeneratorAgreement
  import opened GeneratorContext
  import opened GeneratorPrograms
  import opened GeneratorRecords
  import opened GeneratorReentry
  import opened Wrappers

  // ---------------------------------------------------------------------------------------------
  // Finally blocks that are not plain
  // ---------------------------------------------------------------------------------------------

  /** The guarded part does as the standard says and comes to an end; then its finally block runs. */
  ghost predicate Ends(c: Result, o: Outcome) {
    && Same(c, o) && Stops(c.comp)
    && (c.comp == Normally ==> c.h.pending.None?)
  }

  /** An exception is pending when the finally block gets to a place, after it has shown `log`: it was
      entered by one, and has neither been resumed since nor caught anything. */
  ghost predicate StillPending(o: Outcome, log: seq<Event>) {
    o.ending.Throws? && !Settles(log)
  }

  /** A plain first part of the finally block does what the standard says, and if it ends normally, the
      exception is pending or not. */
  lemma UpTo(pre: Stmt, lo: nat, end: nat, inside: Option<nat>, c: Result, o: Outcome)
    requires PlainFinalizer(pre) && Ends(c, o)
    ensures var r, q := Runs(pre, end, inside, OnFinally(c, lo), c.inputs), Standard(pre, c.inputs);
            && Same(r, q) && !r.comp.Jumping?
            && (q.ending == Falls ==>
                  r.h.pending == if StillPending(o, q.log) then Some(o.ending.thrown) else None)
  {
    hide PlainFinalizer;
    hide Runs;
    hide Standard;
    hide Settles;
    PlainFinalizerAgrees(pre, end, inside, OnFinally(c, lo), c.inputs);
  }

  /** A jump at the end of a finally block does what the standard says, if and only if the block does not
      get to it, or no exception is pending when it does, or the jump has another finally block to go
      through first. */
  lemma JumpInFinally(guarded: Stmt, pre: Stmt, k: nat, lo: nat, inside: Option<nat>, h: Hidden, inputs: seq<Resume>)
    requires PlainFinalizer(pre) && Ends(Runs(guarded, lo + 1, Some(0), h, inputs), Standard(guarded, inputs))
    ensures var s, o := Try(guarded, None, Some(Then(pre, Jump(k)))), Standard(guarded, inputs);
            var q := Standard(pre, o.inputs);
            Same(Runs(s, lo, inside, h, inputs), Standard(s, inputs))
            <==> q.ending != Falls || !StillPending(o, q.log) || (inside.Some? && k >= inside.value)
  {
    hide PlainFinalizer;
    hide Runs;
    hide RunsGuarded;
    hide Standard;
    hide StandardGuarded;
    hide StillPending;
    var s := Try(guarded, None, Some(Then(pre, Jump(k))));
    var c, o, end := Runs(guarded, lo + 1, Some(0), h, inputs), Standard(guarded, inputs), LoOfFinalizer(s, lo);
    RunsOfTry(s, lo, inside, h, inputs);
    RunsOfGuarded(s, lo, inside, h, inputs);
    StandardOfTry(s, inputs);
    StandardOfGuarded(s, inputs);
    BlockJumps(pre, k, lo, end, inside, c, o);
  }

  /** The finally block itself. */
  lemma BlockJumps(pre: Stmt, k: nat, lo: nat, end: nat, inside: Option<nat>, c: Result, o: Outcome)
    requires PlainFinalizer(pre) && Ends(c, o)
    ensures var block, q := Then(pre, Jump(k)), Standard(pre, o.inputs);
            var f, w := Runs(block, end, inside, OnFinally(c, lo), c.inputs), Standard(block, o.inputs);
            && f.log == w.log && f.inputs == w.inputs && f.comp != Normally && w.ending != Falls
            && (Matches(f.comp, w.ending)
                <==> q.ending != Falls || !StillPending(o, q.log) || (inside.Some? && k >= inside.value))
  {
    hide PlainFinalizer;
    hide Runs;
    hide Standard;
    hide Settles;
    var block := Then(pre, Jump(k));
    UpTo(pre, lo, end, inside, c, o);
    RunsOfThen(block, end, inside, OnFinally(c, lo), c.inputs);
    StandardOfThen(block, c.inputs);
    var r := Runs(pre, end, inside, OnFinally(c, lo), c.inputs);
    JumpRuns(k, end + Count(pre), inside, r.h, r.inputs);
    JumpInStandard(k, r.inputs);
  }

  lemma JumpRuns(k: nat, lo: nat, inside: Option<nat>, h: Hidden, inputs: seq<Resume>)
    ensures Runs(Jump(k), lo, inside, h, inputs)
            == Result([], if inside.Some? && k >= inside.value then Jumping(k, false)
                          else if h.pending.Some? then Throwing(h.pending.value) else Jumping(k, true), h, inputs)
  {
  }

  lemma JumpInStandard(k: nat, inputs: seq<Resume>)
    ensures Standard(Jump(k), inputs) == Outcome([], Jumps(k), inputs)
  {
  }

  /** As the standard says, with nothing pending at a normal end. */
  ghost predicate Right(r: Result, o: Outcome) {
    Same(r, o) && !r.comp.Jumping? && (r.comp == Normally ==> r.h.pending.None?)
  }

  /** Cut short by the pending exception. */
  ghost predicate CutOff(r: Result, o: Outcome, v: Value) {
    r.log == o.log && r.comp == Throwing(v) && r.inputs == o.inputs
  }

  /** The guarded part and the handler are like a statement without a finally block. */
  lemma GuardedAlone(s: Stmt, lo: nat, inside: Option<nat>, h: Hidden, inputs: seq<Resume>)
    requires s.Try? && s.finalizer.Some?
    ensures var t := s.(finalizer := None);
            && Runs(t, lo, Some(0), h, inputs) == RunsGuarded(s, lo, inside, h, inputs)
            && Standard(t, inputs) == StandardGuarded(s, inputs)
  {
    var t := s.(finalizer := None);
    hide Runs;
    hide Standard;
    RunsOfTry(t, lo, Some(0), h, inputs);
    RunsOfGuarded(t, lo, Some(0), h, inputs);
    RunsOfGuarded(s, lo, inside, h, inputs);
    StandardOfTry(t, inputs);
    StandardOfGuarded(t, inputs);
    StandardOfGuarded(s, inputs);
  }

  /** A try-finally statement of plain parts, entered with an empty entry, does what the standard says
      unless it ends normally with an exception pending: that is thrown once more. */
  lemma TryRuns(s: Stmt, lo: nat, inside: Option<nat>, h: Hidden, inputs: seq<Resume>)
    requires s.Try? && s.finalizer.Some? && h.Record(lo) == Normally
    requires PlainFinalizer(s.(finalizer := None)) && PlainFinalizer(s.finalizer.value)
    ensures var r, o := Runs(s, lo, inside, h, inputs), Standard(s, inputs);
            if o.ending == Falls && h.pending.Some? && !Settles(o.log) then CutOff(r, o, h.pending.value)
            else Right(r, o)
  {
    hide PlainFinalizer;
    hide Runs;
    hide RunsGuarded;
    hide Standard;
    hide StandardGuarded;
    hide Settles;
    hide Finally;
    var a, block := StandardGuarded(s, inputs), s.finalizer.value;
    var b := Standard(block, a.inputs);
    var c := RunsGuarded(s, lo, inside, h, inputs);
    GuardedAlone(s, lo, inside, h, inputs);
    PlainFinalizerAgrees(s.(finalizer := None), lo, Some(0), h, inputs);
    RunsOfFinally(s, lo, inside, h, inputs);
    RecordAtEnd(s, lo, inside, h, inputs);
    RecordAfterGuarded(s, lo, inside, h, inputs);
    StandardOfTry(s, inputs);
    if Stops(c.comp) {
      FinallyAgrees(s, lo, inside, h, inputs);
      SettlesBoth(a.log, b.log);
    }
  }

  lemma FinallyAgrees(s: Stmt, lo: nat, inside: Option<nat>, h: Hidden, inputs: seq<Resume>)
    requires s.Try? && s.finalizer.Some? && PlainFinalizer(s.finalizer.value)
    ensures var c := RunsGuarded(s, lo, inside, h, inputs);
            FinalizerAgrees(Finally(s, lo, inside, h, inputs), Standard(s.finalizer.value, c.inputs), OnFinally(c, lo))
  {
    hide PlainFinalizer;
    hide Runs;
    hide RunsGuarded;
    hide Standard;
    hide Settles;
    var c := RunsGuarded(s, lo, inside, h, inputs);
    PlainFinalizerAgrees(s.finalizer.value, LoOfFinalizer(s, lo), inside, OnFinally(c, lo), c.inputs);
  }

  /** A try-finally statement in a finally block, between plain statements, is run as the standard says
      together with what follows it, if and only if the block does not get to the normal end of that
      statement, or no exception is pending there, or what follows would show nothing and end normally or
      with the same exception. */
  lemma TryInFinally(guarded: Stmt, pre: Stmt, t: Stmt, post: Stmt, lo: nat, inside: Option<nat>, h: Hidden,
                     inputs: seq<Resume>)
    requires t.Try? && t.finalizer.Some? && PlainFinalizer(t.(finalizer := None)) && PlainFinalizer(t.finalizer.value)
    requires PlainFinalizer(pre) && PlainFinalizer(post)
    requires Ends(Runs(guarded, lo + 1, Some(0), h, inputs), Standard(guarded, inputs))
    requires h.Record(lo) == Normally && h.Record(lo + 1 + Count(guarded) + Count(pre)) == Normally
    ensures var s, o := Try(guarded, None, Some(Then(pre, Then(t, post)))), Standard(guarded, inputs);
            var q := Standard(Then(pre, t), o.inputs);
            var z := Standard(post, q.inputs);
            Same(Runs(s, lo, inside, h, inputs), Standard(s, inputs))
            <==> q.ending != Falls || !StillPending(o, q.log) || (z.log == [] && z.ending in {Falls, o.ending})
  {
    hide PlainFinalizer;
    hide Runs;
    hide RunsGuarded;
    hide Standard;
    hide StillPending;
    hide Right;
    hide CutOff;
    var block := Then(pre, Then(t, post));
    var s := Try(guarded, None, Some(block));
    var c, o := Runs(guarded, lo + 1, Some(0), h, inputs), Standard(guarded, inputs);
    RunsOfFinally(s, lo, inside, h, inputs);
    RunsOfGuarded(s, lo, inside, h, inputs);
    RecordAtEnd(s, lo, inside, h, inputs);
    RecordAfterGuarded(s, lo, inside, h, inputs);
    StandardOfTry(s, inputs);
    StandardOfGuarded(s, inputs);
    assert RunsGuarded(s, lo, inside, h, inputs) == c;
    assert Count(s.guarded) == Count(guarded) && LoOfFinalizer(s, lo) == lo + 1 + Count(guarded);
    var at := LoOfFinalizer(s, lo) + Count(pre);
    KeepsOthers(guarded, lo + 1, Some(0), h, inputs);
    assert c.h.Record(at) == Normally;
    BlockRuns(pre, t, post, lo, LoOfFinalizer(s, lo), inside, c, o);
    BlockStandard(pre, t, post, o.inputs);
    var f, w, q := Finally(s, lo, inside, h, inputs), Standard(block, o.inputs), Standard(Then(pre, t), o.inputs);
    AfterBlock(c, f, o, w, q, Standard(post, q.inputs), lo);
    assert Standard(s, inputs) == if w.ending == Falls then w.After(o.log).(ending := o.ending) else w.After(o.log);
  }

  /** What the whole statement makes of it. */
  lemma AfterBlock(c: Result, f: Result, o: Outcome, w: Outcome, q: Outcome, z: Outcome, lo: nat)
    requires Ends(c, o) && f.h.Record(lo) == if c.comp == Normally then Normally else c.comp
    requires w == if q.ending == Falls then z.After(q.log) else q
    requires z.log == [] ==> z.inputs == q.inputs
    requires if q.ending == Falls && StillPending(o, q.log) then CutOff(f, q, o.ending.thrown) else Right(f, w)
    ensures Same(WithFinally(c, f, lo),
                 if w.ending == Falls then w.After(o.log).(ending := o.ending) else w.After(o.log))
            <==> q.ending != Falls || !StillPending(o, q.log) || (z.log == [] && z.ending in {Falls, o.ending})
  {
    hide Settles;
    if q.ending == Falls && StillPending(o, q.log) {
      assert |o.log + (q.log + z.log)| == |o.log + q.log| + |z.log|;
      if z.log == [] {
        assert q.log + z.log == q.log;
      }
    }
  }

  /** The block ends where its first two parts do, or goes on with the third. */
  lemma BlockStandard(pre: Stmt, t: Stmt, post: Stmt, inputs: seq<Resume>)
    ensures var q := Standard(Then(pre, t), inputs);
            var z := Standard(post, q.inputs);
            && Standard(Then(pre, Then(t, post)), inputs) == (if q.ending == Falls then z.After(q.log) else q)
            && (z.log == [] ==> z.inputs == q.inputs)
  {
    hide Standard;
    StandardOfThen(Then(pre, Then(t, post)), inputs);
    StandardOfThen(Then(pre, t), inputs);
    var p, q := Standard(pre, inputs), Standard(Then(pre, t), inputs);
    StandardOfThen(Then(t, post), p.inputs);
    BodyShows(post, q.inputs);
    var u := Standard(t, p.inputs);
    assert p.log + (u.log + Standard(post, u.inputs).log) == p.log + u.log + Standard(post, u.inputs).log;
  }

  /** The finally block itself. */
  lemma BlockRuns(pre: Stmt, t: Stmt, post: Stmt, lo: nat, end: nat, inside: Option<nat>, c: Result, o: Outcome)
    requires t.Try? && t.finalizer.Some? && lo < end && Ends(c, o)
    requires PlainFinalizer(t.(finalizer := None)) && PlainFinalizer(t.finalizer.value)
    requires PlainFinalizer(pre) && PlainFinalizer(post) && c.h.Record(end + Count(pre)) == Normally
    ensures var block := Then(pre, Then(t, post));
            var f, w := Runs(block, end, inside, OnFinally(c, lo), c.inputs), Standard(block, o.inputs);
            var q := Standard(Then(pre, t), o.inputs);
            if q.ending == Falls && StillPending(o, q.log) then CutOff(f, q, o.ending.thrown) else Right(f, w)
  {
    hide PlainFinalizer;
    hide Runs;
    hide Standard;
    hide Settles;
    var block, h1 := Then(pre, Then(t, post)), OnFinally(c, lo);
    var at, p := end + Count(pre), Standard(pre, c.inputs);
    RunsOfThen(block, end, inside, h1, c.inputs);
    StandardOfThen(block, c.inputs);
    StandardOfThen(Then(pre, t), c.inputs);
    UpTo(pre, lo, end, inside, c, o);
    if p.ending == Falls {
      var r := Runs(pre, end, inside, h1, c.inputs);
      KeepsOthers(pre, end, inside, h1, c.inputs);
      assert r.h.Record(at) == h1.Record(at) == c.h.Record(at);
      TailRuns(t, post, at, inside, r.h, r.inputs);
      SettlesBoth(p.log, Standard(t, r.inputs).log);
    }
  }

  /** The try-finally statement and what follows it. */
  lemma TailRuns(t: Stmt, post: Stmt, at: nat, inside: Option<nat>, h: Hidden, inputs: seq<Resume>)
    requires t.Try? && t.finalizer.Some? && h.Record(at) == Normally
    requires PlainFinalizer(t.(finalizer := None)) && PlainFinalizer(t.finalizer.value) && PlainFinalizer(post)
    ensures var f, w := Runs(Then(t, post), at, inside, h, inputs), Standard(Then(t, post), inputs);
            var u := Standard(t, inputs);
            if u.ending == Falls && h.pending.Some? && !Settles(u.log) then CutOff(f, u, h.pending.value)
            else Right(f, w)
  {
    hide PlainFinalizer;
    hide Runs;
    hide Standard;
    hide Settles;
    TryRuns(t, at, inside, h, inputs);
    RunsOfThen(Then(t, post), at, inside, h, inputs);
    StandardOfThen(Then(t, post), inputs);
    var u := Runs(t, at, inside, h, inputs);
    if u.comp == Normally {
      PlainFinalizerAgrees(post, at + Count(t), inside, u.h, u.inputs);
    }
  }

  // ---------------------------------------------------------------------------------------------
  // Small programs
  // ---------------------------------------------------------------------------------------------

  /** A generator that is told to return before it starts runs its first finally block. */
  lemma ReturnBeforeStartRunsFinally()
    ensures var s := Try(Emit(1), None, Some(Emit(2)));
            var calls := [Resume(ReturnMode, Given(1))];
            && StandardLog(s, calls) == [Done(Given(1))]
            && RuntimeLog(s, calls) == [Emitted(2), Done(Given(1))]
  {
    var s := Try(Emit(1), None, Some(Emit(2)));
    OpenedRuns();
    hide Run;
    assert RuntimeLog(s, [Resume(ReturnMode, Given(1))]) == RunLog(Opened(s, Given(1)), []);
    assert RunLog(Opened(s, Given(1)), []) == [Emitted(2)] + [Done(Given(1))];
  }

  lemma OpenedRuns()
    ensures var r := Run(Opened(Try(Emit(1), None, Some(Emit(2))), Given(1)), []);
            r.log == [Emitted(2)] && r.comp == Returning(Given(1)) && r.inputs == []
  {
    hide Runs;
    var give, h := Then(Give(Given(1)), Emit(1)), NothingHidden();
    var t := Try(give, None, Some(Emit(2)));
    GiveRuns(Given(1), 1, Some(0), h, []);
    RunsOfThen(give, 1, Some(0), h, []);
    RunsOfGuarded(t, 0, None, h, []);
    RunsOfTry(t, 0, None, h, []);
    var c := RunsGuarded(t, 0, None, h, []);
    EmitRuns(2, LoOfFinalizer(t, 0), None, OnFinally(c, 0), []);
  }

  lemma GiveRuns(v: Value, lo: nat, inside: Option<nat>, h: Hidden, inputs: seq<Resume>)
    ensures Runs(Give(v), lo, inside, h, inputs) == Result([], Returning(v), h, inputs)
  {
  }

  lemma EmitRuns(id: int, lo: nat, inside: Option<nat>, h: Hidden, inputs: seq<Resume>)
    ensures Runs(Emit(id), lo, inside, h, inputs) == Result([Emitted(id)], Normally, h, inputs)
    ensures Standard(Emit(id), inputs) == Outcome([Emitted(id)], Falls, inputs)
  {
  }

  /** A finally block entered by an exception cannot swallow it by jumping away. */
  lemma JumpDoesNotReplaceException()
    ensures var s := Labelled(Try(Raise(Given(1)), None, Some(Jump(0))));
            var start := [Resume(NextMode, Undefined)];
            && StandardLog(s, start) == [Done(Undefined)]
            && RuntimeLog(s, start) == [Thrown(Given(1))]
  {
    var t, h := Try(Raise(Given(1)), None, Some(Jump(0))), NothingHidden();
    RaiseStandard(Given(1));
    RaiseRuns(Given(1), 1, Some(0), h, []);
    JumpInStandard(0, []);
    assert Standard(Labelled(t), []) == Standard(t, []).AtLabel();
    hide Standard;
    hide Runs;
    hide RunsGuarded;
    StandardOfTry(t, []);
    StandardOfGuarded(t, []);
    RunsOfLabelled(Labelled(t), 0, None, h, []);
    RunsOfTry(t, 0, None, h, []);
    RunsOfGuarded(t, 0, None, h, []);
    var c := RunsGuarded(t, 0, None, h, []);
    JumpRuns(0, LoOfFinalizer(t, 0), None, OnFinally(c, 0), []);
  }

  /** A finally block entered by an exception is cut short by a try-finally statement inside it. */
  lemma NestedFinallyCutsShort()
    ensures var s := Try(Raise(Given(1)), None, Some(Then(Try(Emit(1), None, Some(Emit(2))), Emit(3))));
            var start := [Resume(NextMode, Undefined)];
            && StandardLog(s, start) == [Emitted(1), Emitted(2), Emitted(3), Thrown(Given(1))]
            && RuntimeLog(s, start) == [Emitted(1), Emitted(2), Thrown(Given(1))]
  {
    CutShortOutcome();
    CutShortRun();
    hide Standard;
    hide Runs;
    assert StandardLog(CutShort(), [Resume(NextMode, Undefined)])
        == [Emitted(1), Emitted(2), Emitted(3)] + [Thrown(Given(1))];
    assert RunLog(CutShort(), []) == [Emitted(1), Emitted(2)] + [Thrown(Given(1))];
  }

  function CutShort(): Stmt {
    Try(Raise(Given(1)), None, Some(Then(Try(Emit(1), None, Some(Emit(2))), Emit(3))))
  }

  lemma CutShortOutcome()
    ensures Standard(CutShort(), []) == Outcome([Emitted(1), Emitted(2), Emitted(3)], Throws(Given(1)), [])
  {
    CutShortStandard();
    RaiseStandard(Given(1));
    hide Standard;
    StandardOfTry(CutShort(), []);
    StandardOfGuarded(CutShort(), []);
  }

  lemma CutShortRun()
    ensures var r := Run(CutShort(), []);
            r.log == [Emitted(1), Emitted(2)] && r.comp == Throwing(Given(1)) && r.inputs == []
  {
    hide Runs;
    hide RunsGuarded;
    var s, h := CutShort(), NothingHidden();
    var held := Hidden(Some(Given(1)), Undefined, map[0 := Throwing(Given(1))]);
    CutShortBlock(held);
    RaiseRuns(Given(1), 1, Some(0), h, []);
    RunsOfTry(s, 0, None, h, []);
    RunsOfGuarded(s, 0, None, h, []);
    var c, block := RunsGuarded(s, 0, None, h, []), s.finalizer.value;
    assert c == Result([], Throwing(Given(1)), h, []);
    assert OnFinally(c, 0) == held && LoOfFinalizer(s, 0) == 1;
    var f := Runs(block, 1, None, held, []);
    assert WithFinally(c, f, 0) == f.After([]);
    assert [] + f.log == f.log;
  }

  lemma RaiseRuns(v: Value, lo: nat, inside: Option<nat>, h: Hidden, inputs: seq<Resume>)
    ensures Runs(Raise(v), lo, inside, h, inputs) == Result([], Throwing(v), h, inputs)
  {
  }

  lemma RaiseStandard(v: Value)
    ensures Standard(Raise(v), []) == Outcome([], Throws(v), [])
  {
  }

  lemma CutShortStandard()
    ensures Standard(Then(Try(Emit(1), None, Some(Emit(2))), Emit(3)), [])
            == Outcome([Emitted(1), Emitted(2), Emitted(3)], Falls, [])
  {
    assert Standard(Try(Emit(1), None, Some(Emit(2))), []) == Outcome([Emitted(1), Emitted(2)], Falls, []);
  }

  lemma CutShortBlock(h: Hidden)
    requires h.pending.Some? && h.Record(1) == Normally
    ensures var r := Runs(Then(Try(Emit(1), None, Some(Emit(2))), Emit(3)), 1, None, h, []);
            r.log == [Emitted(1), Emitted(2)] && r.comp == Throwing(h.pending.value) && r.inputs == []
  {
    var t := Try(Emit(1), None, Some(Emit(2)));
    assert Standard(t, []) == Outcome([Emitted(1), Emitted(2)], Falls, []);
    assert !Settles([Emitted(1), Emitted(2)]);
    TryRuns(t, 1, None, h, []);
    hide Runs;
    RunsOfThen(Then(t, Emit(3)), 1, None, h, []);
  }

  /** A plain program that overrides a return, and reports its value all the same. */
  lemma OverriddenReturnIsReported()
    ensures var s := Try(Try(Try(Give(Given(1)), None, Some(Emit(1))), None, Some(Raise(Given(2)))),
                         Some(Emit(2)), None);
            var start := [Resume(NextMode, Undefined)];
            && Plain(s, 0, 0) && ReportsOldReturn(s, [])
            && StandardLog(s, start) == [Emitted(1), Entered(Given(2)), Emitted(2), Done(Undefined)]
            && RuntimeLog(s, start) == [Emitted(1), Entered(Given(2)), Emitted(2), Done(Given(1))]
  {
    OverriddenStandard();
    OverriddenReturn();
    OverriddenIsPlain();
    var s := Overridden();
    NothingOldAtStart(s, []);
    hide Plain;
    hide LoopsCatchFirst;
    hide NothingOld;
    PlainRunsAgree(s, []);
    OverriddenEnds(s);
  }

  function Overridden(): Stmt {
    Try(Try(Try(Give(Given(1)), None, Some(Emit(1))), None, Some(Raise(Given(2)))), Some(Emit(2)), None)
  }

  lemma OverriddenIsPlain()
    ensures Plain(Overridden(), 0, 0) && LoopsCatchFirst(Overridden())
  {
    var t := Try(Give(Given(1)), None, Some(Emit(1)));
    var u := Try(t, None, Some(Raise(Given(2))));
    assert Plain(t, 0, 0) && Plain(u, 0, 0);
    assert LoopsCatchFirst(t) && LoopsCatchFirst(u);
  }

  lemma OverriddenEnds(s: Stmt)
    requires Agrees(Run(s, []), Standard(s, []), None, 0, LastReturn(s, [], Undefined))
    requires Standard(s, []) == Outcome([Emitted(1), Entered(Given(2)), Emitted(2)], Falls, [])
    requires LastReturn(s, [], Undefined) == Given(1)
    ensures var start := [Resume(NextMode, Undefined)];
            && StandardLog(s, start) == [Emitted(1), Entered(Given(2)), Emitted(2), Done(Undefined)]
            && RuntimeLog(s, start) == [Emitted(1), Entered(Given(2)), Emitted(2), Done(Given(1))]
  {
    hide Run;
    hide Standard;
    hide LastReturn;
    assert RunLog(s, []) == [Emitted(1), Entered(Given(2)), Emitted(2)] + [Done(Given(1))];
  }

  lemma OverriddenInner()
    ensures Standard(Try(Give(Given(1)), None, Some(Emit(1))), []) == Outcome([Emitted(1)], Returns(Given(1)), [])
    ensures Standard(Try(Try(Give(Given(1)), None, Some(Emit(1))), None, Some(Raise(Given(2)))), [])
            == Outcome([Emitted(1)], Throws(Given(2)), [])
  {
    var t := Try(Give(Given(1)), None, Some(Emit(1)));
    var u := Try(t, None, Some(Raise(Given(2))));
    GiveStandard(Given(1));
    RaiseStandard(Given(2));
    EmitRuns(1, 0, None, NothingHidden(), []);
    hide Standard;
    StandardOfTry(t, []);
    StandardOfGuarded(t, []);
    StandardOfTry(u, []);
    StandardOfGuarded(u, []);
  }

  lemma GiveStandard(v: Value)
    ensures Standard(Give(v), []) == Outcome([], Returns(v), [])
  {
  }

  lemma OverriddenStandard()
    ensures var s := Try(Try(Try(Give(Given(1)), None, Some(Emit(1))), None, Some(Raise(Given(2)))), Some(Emit(2)), None);
            Standard(s, []) == Outcome([Emitted(1), Entered(Given(2)), Emitted(2)], Falls, [])
  {
    var s := Try(Try(Try(Give(Given(1)), None, Some(Emit(1))), None, Some(Raise(Given(2)))), Some(Emit(2)), None);
    OverriddenInner();
    assert Standard(Emit(2), []) == Outcome([Emitted(2)], Falls, []);
    hide Standard;
    StandardOfTry(s, []);
    StandardOfGuarded(s, []);
  }

  lemma OverriddenReturn()
    ensures var s := Try(Try(Try(Give(Given(1)), None, Some(Emit(1))), None, Some(Raise(Given(2)))), Some(Emit(2)), None);
            LastReturn(s, [], Undefined) == Given(1)
  {
    var t := Try(Give(Given(1)), None, Some(Emit(1)));
    var u := Try(t, None, Some(Raise(Given(2))));
    var s := Try(u, Some(Emit(2)), None);
    OverriddenInner();
    assert LastReturn(t, [], Undefined) == Given(1);
    assert LastReturnGuarded(u, [], Undefined) == Given(1);
    assert LastReturn(u, [], Undefined) == Given(1);
    assert LastReturnGuarded(s, [], Undefined) == Given(1);
  }
}
