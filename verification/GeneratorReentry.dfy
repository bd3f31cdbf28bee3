/** Try statements that are entered again, with what is left in their entries from the time before. */
module GeneratorReentry {
  import opened GeneratorContext
  import opened GeneratorPrograms
  import opened GeneratorRecords
  import opened Wrappers

  // ---------------------------------------------------------------------------------------------
  // Only a statement's own entries matter to it
  // ---------------------------------------------------------------------------------------------

  ghost predicate Alike(h: Hidden, h': Hidden, lo: nat, hi: nat) {
    h.pending == h'.pending && h.rval == h'.rval && forall i: nat | lo <= i < hi :: h.Record(i) == h'.Record(i)
  }

  ghost predicate SameRun(r: Result, r': Result, lo: nat, hi: nat) {
    r.log == r'.log && r.comp == r'.comp && r.inputs == r'.inputs && Alike(r.h, r'.h, lo, hi)
  }

  /** Where a part has run alike and the rest has not changed, all is alike. */
  lemma AlikeAround(h: Hidden, h': Hidden, r: Hidden, r': Hidden, lo: nat, hi: nat, a: nat, b: nat)
    requires Alike(h, h', lo, hi) && SameOutside(h, r, a, b) && SameOutside(h', r', a, b) && Alike(r, r', a, b)
    ensures Alike(r, r', lo, hi)
  {
  }

  lemma AlikeWithin(h: Hidden, h': Hidden, lo: nat, hi: nat, a: nat, b: nat)
    requires Alike(h, h', lo, hi) && lo <= a && b <= hi
    ensures Alike(h, h', a, b)
  {
  }

  lemma {:induction false} RunsAlike(s: Stmt, lo: nat, inside: Option<nat>, h: Hidden, h': Hidden,
                                     inputs: seq<Resume>)
    requires Alike(h, h', lo, lo + Count(s))
    ensures SameRun(Runs(s, lo, inside, h, inputs), Runs(s, lo, inside, h', inputs), lo, lo + Count(s))
    decreases |inputs|, s, 1
  {
    match s {
      case Then(_, _) => ThenAlike(s, lo, inside, h, h', inputs);
      case Labelled(body) =>
        hide Runs;
        RunsOfLabelled(s, lo, inside, h, inputs);
        RunsOfLabelled(s, lo, inside, h', inputs);
        RunsAlike(body, lo, Deeper(inside), h, h', inputs);
      case Loop(_) => LoopAlike(s, lo, inside, h, h', inputs);
      case Try(_, _, _) => TryAlike(s, lo, inside, h, h', inputs);
      case _ =>
    }
  }

  lemma {:induction false} ThenAlike(s: Stmt, lo: nat, inside: Option<nat>, h: Hidden, h': Hidden,
                                     inputs: seq<Resume>)
    requires s.Then? && Alike(h, h', lo, lo + Count(s))
    ensures SameRun(Runs(s, lo, inside, h, inputs), Runs(s, lo, inside, h', inputs), lo, lo + Count(s))
    decreases |inputs|, s, 0
  {
    hide Runs;
    hide Alike;
    hide SameOutside;
    RunsOfThen(s, lo, inside, h, inputs);
    RunsOfThen(s, lo, inside, h', inputs);
    var mid, hi := lo + Count(s.first), lo + Count(s);
    var r, r' := Runs(s.first, lo, inside, h, inputs), Runs(s.first, lo, inside, h', inputs);
    AlikeWithin(h, h', lo, hi, lo, mid);
    RunsAlike(s.first, lo, inside, h, h', inputs);
    KeepsOthers(s.first, lo, inside, h, inputs);
    KeepsOthers(s.first, lo, inside, h', inputs);
    AlikeAround(h, h', r.h, r'.h, lo, hi, lo, mid);
    if r.comp == Normally {
      var q, q' := Runs(s.second, mid, inside, r.h, r.inputs), Runs(s.second, mid, inside, r'.h, r.inputs);
      AlikeWithin(r.h, r'.h, lo, hi, mid, hi);
      RunsAlike(s.second, mid, inside, r.h, r'.h, r.inputs);
      KeepsOthers(s.second, mid, inside, r.h, r.inputs);
      KeepsOthers(s.second, mid, inside, r'.h, r.inputs);
      AlikeAround(r.h, r'.h, q.h, q'.h, lo, hi, mid, hi);
    }
  }

  lemma {:induction false} LoopAlike(s: Stmt, lo: nat, inside: Option<nat>, h: Hidden, h': Hidden,
                                     inputs: seq<Resume>)
    requires s.Loop? && Alike(h, h', lo, lo + Count(s))
    ensures SameRun(Runs(s, lo, inside, h, inputs), Runs(s, lo, inside, h', inputs), lo, lo + Count(s))
    decreases |inputs|, s, 0
  {
    hide Runs;
    hide Alike;
    RunsOfLoop(s, lo, inside, h, inputs);
    RunsOfLoop(s, lo, inside, h', inputs);
    RunsAlike(s.body, lo, Deeper(inside), h, h', inputs);
    var r, r' := Runs(s.body, lo, Deeper(inside), h, inputs), Runs(s.body, lo, Deeper(inside), h', inputs);
    if |r.inputs| < |inputs| {
      RunsAlike(s, lo, inside, r.h, r'.h, r.inputs);
    }
  }

  lemma {:induction false} GuardedAlike(s: Stmt, lo: nat, inside: Option<nat>, h: Hidden, h': Hidden,
                                        inputs: seq<Resume>)
    requires s.Try? && Alike(h, h', lo + 1, LoOfFinalizer(s, lo))
    ensures SameRun(RunsGuarded(s, lo, inside, h, inputs), RunsGuarded(s, lo, inside, h', inputs), lo + 1,
                    LoOfFinalizer(s, lo))
    decreases |inputs|, s, 0, 0
  {
    hide Runs;
    hide Alike;
    hide SameOutside;
    RunsOfGuarded(s, lo, inside, h, inputs);
    RunsOfGuarded(s, lo, inside, h', inputs);
    var inner, mid, end := Inner(s, inside), LoOfHandler(s, lo), LoOfFinalizer(s, lo);
    var g, g' := Runs(s.guarded, lo + 1, inner, h, inputs), Runs(s.guarded, lo + 1, inner, h', inputs);
    AlikeWithin(h, h', lo + 1, end, lo + 1, mid);
    RunsAlike(s.guarded, lo + 1, inner, h, h', inputs);
    KeepsOthers(s.guarded, lo + 1, inner, h, inputs);
    KeepsOthers(s.guarded, lo + 1, inner, h', inputs);
    AlikeAround(h, h', g.h, g'.h, lo + 1, end, lo + 1, mid);
    if g.comp.Throwing? && s.handler.Some? {
      var h1, h1' := OnHandler(g, lo), OnHandler(g', lo);
      HandlerAlike(g, g', lo, end);
      AlikeWithin(h1, h1', lo + 1, end, mid, end);
      RunsAlike(s.handler.value, mid, inner, h1, h1', g.inputs);
      KeepsOthers(s.handler.value, mid, inner, h1, g.inputs);
      KeepsOthers(s.handler.value, mid, inner, h1', g.inputs);
      AlikeAround(h1, h1', Runs(s.handler.value, mid, inner, h1, g.inputs).h,
                  Runs(s.handler.value, mid, inner, h1', g.inputs).h, lo + 1, end, mid, end);
    }
  }

  lemma HandlerAlike(g: Result, g': Result, lo: nat, hi: nat)
    requires Alike(g.h, g'.h, lo + 1, hi)
    ensures Alike(OnHandler(g, lo), OnHandler(g', lo), lo + 1, hi)
  {
    forall i: nat | lo + 1 <= i < hi ensures OnHandler(g, lo).Record(i) == OnHandler(g', lo).Record(i) {
      assert g.h.Record(i) == g'.h.Record(i);
    }
  }

  /** What the entry holds when the guarded part is over: nothing if the handler has run, and otherwise
      what it held at the start. */
  lemma RecordAfterGuarded(s: Stmt, lo: nat, inside: Option<nat>, h: Hidden, inputs: seq<Resume>)
    requires s.Try?
    ensures RunsGuarded(s, lo, inside, h, inputs).h.Record(lo)
            == if Runs(s.guarded, lo + 1, Inner(s, inside), h, inputs).comp.Throwing? && s.handler.Some? then Normally
               else h.Record(lo)
  {
    hide Runs;
    RunsOfGuarded(s, lo, inside, h, inputs);
    var g := Runs(s.guarded, lo + 1, Inner(s, inside), h, inputs);
    KeepsOthers(s.guarded, lo + 1, Inner(s, inside), h, inputs);
    if g.comp.Throwing? && s.handler.Some? {
      KeepsOthers(s.handler.value, LoOfHandler(s, lo), Inner(s, inside), OnHandler(g, lo), g.inputs);
    }
  }

  /** The finally block as it runs after the guarded part. */
  function Finally(s: Stmt, lo: nat, inside: Option<nat>, h: Hidden, inputs: seq<Resume>): Result
    requires s.Try? && s.finalizer.Some?
  {
    var c := RunsGuarded(s, lo, inside, h, inputs);
    Runs(s.finalizer.value, LoOfFinalizer(s, lo), inside, OnFinally(c, lo), c.inputs)
  }

  lemma {:induction false} FinallyAlike(s: Stmt, lo: nat, inside: Option<nat>, h: Hidden, h': Hidden,
                                        inputs: seq<Resume>)
    requires s.Try? && s.finalizer.Some? && Alike(h, h', lo + 1, lo + Count(s))
    ensures SameRun(RunsGuarded(s, lo, inside, h, inputs), RunsGuarded(s, lo, inside, h', inputs), lo + 1,
                    lo + Count(s))
    ensures SameRun(Finally(s, lo, inside, h, inputs), Finally(s, lo, inside, h', inputs), lo + 1, lo + Count(s))
    decreases |inputs|, s, 0, 1
  {
    hide Runs;
    hide RunsGuarded;
    hide Alike;
    hide SameOutside;
    var end, hi := LoOfFinalizer(s, lo), lo + Count(s);
    var c, c' := RunsGuarded(s, lo, inside, h, inputs), RunsGuarded(s, lo, inside, h', inputs);
    AlikeWithin(h, h', lo + 1, hi, lo + 1, end);
    GuardedAlike(s, lo, inside, h, h', inputs);
    AlikeAfterGuarded(s, lo, inside, h, h', inputs);
    FinallyHidden(c, c', lo, hi);
    var h1, h1' := OnFinally(c, lo), OnFinally(c', lo);
    AlikeWithin(h1, h1', lo + 1, hi, end, hi);
    RunsAlike(s.finalizer.value, end, inside, h1, h1', c.inputs);
    KeepsOthers(s.finalizer.value, end, inside, h1, c.inputs);
    KeepsOthers(s.finalizer.value, end, inside, h1', c.inputs);
    AlikeAround(h1, h1', Finally(s, lo, inside, h, inputs).h, Finally(s, lo, inside, h', inputs).h, lo + 1, hi, end, hi);
  }

  lemma AlikeAfterGuarded(s: Stmt, lo: nat, inside: Option<nat>, h: Hidden, h': Hidden, inputs: seq<Resume>)
    requires s.Try? && Alike(h, h', lo + 1, lo + Count(s))
    requires SameRun(RunsGuarded(s, lo, inside, h, inputs), RunsGuarded(s, lo, inside, h', inputs), lo + 1,
                     LoOfFinalizer(s, lo))
    ensures Alike(RunsGuarded(s, lo, inside, h, inputs).h, RunsGuarded(s, lo, inside, h', inputs).h, lo + 1,
                  lo + Count(s))
  {
    hide RunsGuarded;
    KeepsOthersGuarded(s, lo, inside, h, inputs);
    KeepsOthersGuarded(s, lo, inside, h', inputs);
  }

  lemma FinallyHidden(c: Result, c': Result, lo: nat, hi: nat)
    requires SameRun(c, c', lo + 1, hi)
    ensures Alike(OnFinally(c, lo), OnFinally(c', lo), lo + 1, hi)
  {
    forall i: nat | lo + 1 <= i < hi ensures OnFinally(c, lo).Record(i) == OnFinally(c', lo).Record(i) {
      assert c.h.Record(i) == c'.h.Record(i);
    }
  }

  lemma EndAlike(c: Result, c': Result, f: Result, f': Result, lo: nat, hi: nat)
    requires SameRun(c, c', lo + 1, hi) && SameRun(f, f', lo + 1, hi) && f.h.Record(lo) == f'.h.Record(lo)
    ensures SameRun(WithFinally(c, f, lo), WithFinally(c', f', lo), lo, hi)
  {
    var w, w' := WithFinally(c, f, lo), WithFinally(c', f', lo);
    forall i: nat | lo <= i < hi ensures w.h.Record(i) == w'.h.Record(i) {
      assert i > lo ==> f.h.Record(i) == f'.h.Record(i);
    }
  }

  lemma {:induction false} TryAlike(s: Stmt, lo: nat, inside: Option<nat>, h: Hidden, h': Hidden,
                                    inputs: seq<Resume>)
    requires s.Try? && Alike(h, h', lo, lo + Count(s))
    ensures SameRun(Runs(s, lo, inside, h, inputs), Runs(s, lo, inside, h', inputs), lo, lo + Count(s))
    decreases |inputs|, s, 0, 2
  {
    hide Runs;
    hide RunsGuarded;
    hide Finally;
    RunsAlikeFirst(s, lo, inside, h, h', inputs);
    RecordAfterGuarded(s, lo, inside, h, inputs);
    RecordAfterGuarded(s, lo, inside, h', inputs);
    if s.finalizer.Some? {
      FinallyAlike(s, lo, inside, h, h', inputs);
      RecordAtEnd(s, lo, inside, h, inputs);
      RecordAtEnd(s, lo, inside, h', inputs);
      RunsOfFinally(s, lo, inside, h, inputs);
      RunsOfFinally(s, lo, inside, h', inputs);
      EndAlike(RunsGuarded(s, lo, inside, h, inputs), RunsGuarded(s, lo, inside, h', inputs),
               Finally(s, lo, inside, h, inputs), Finally(s, lo, inside, h', inputs), lo, lo + Count(s));
    } else {
      RunsOfTry(s, lo, inside, h, inputs);
      RunsOfTry(s, lo, inside, h', inputs);
      GuardedAlike(s, lo, inside, h, h', inputs);
    }
  }

  lemma {:induction false} RunsAlikeFirst(s: Stmt, lo: nat, inside: Option<nat>, h: Hidden, h': Hidden,
                                          inputs: seq<Resume>)
    requires s.Try? && Alike(h, h', lo, lo + Count(s))
    ensures Runs(s.guarded, lo + 1, Inner(s, inside), h, inputs).comp
            == Runs(s.guarded, lo + 1, Inner(s, inside), h', inputs).comp
    decreases |inputs|, s, 0, 1
  {
    RunsAlike(s.guarded, lo + 1, Inner(s, inside), h, h', inputs);
  }

  /** What the end of the finally block resumes: how the guarded part ended, or, if that was normally,
      what the entry held before. */
  lemma RecordAtEnd(s: Stmt, lo: nat, inside: Option<nat>, h: Hidden, inputs: seq<Resume>)
    requires s.Try? && s.finalizer.Some?
    ensures var c := RunsGuarded(s, lo, inside, h, inputs);
            Finally(s, lo, inside, h, inputs).h.Record(lo) == if c.comp == Normally then c.h.Record(lo) else c.comp
  {
    hide Runs;
    hide RunsGuarded;
    var c := RunsGuarded(s, lo, inside, h, inputs);
    KeepsOthers(s.finalizer.value, LoOfFinalizer(s, lo), inside, OnFinally(c, lo), c.inputs);
  }

  // ---------------------------------------------------------------------------------------------
  // What an old record does
  // ---------------------------------------------------------------------------------------------

  /** To resume the completion is to complete normally: there is none, or the exception that is pending
      is dispatched once more in either case. */
  predicate Inert(comp: Comp, pending: Option<Value>) {
    || comp.Normally? || comp.Waiting? || comp.Spinning?
    || (pending.Some? && (comp.Jumping? || comp == Throwing(pending.value)))
  }

  /** The statement ends by resuming what its entry held before it was entered. */
  ghost predicate Resumes(s: Stmt, lo: nat, inside: Option<nat>, h: Hidden, inputs: seq<Resume>)
    requires s.Try? && s.finalizer.Some?
  {
    var c, f := RunsGuarded(s, lo, inside, h, inputs), Finally(s, lo, inside, h, inputs);
    c.comp == Normally && f.comp == Normally && !Inert(c.h.Record(lo), f.h.pending)
  }

  ghost predicate LooksSame(r: Result, r': Result) {
    r.log == r'.log && r.comp == r'.comp && r.inputs == r'.inputs && r.h.pending == r'.h.pending && r.h.rval == r'.h.rval
  }

  /** A try-finally statement behaves as if its entry were empty, if and only if it does not come to
      resume what the entry holds: that is, if and only if its guarded part or its handler ends abruptly,
      or the handler runs, or the finally block does not end normally, or the entry holds nothing that
      makes a difference. */
  lemma EnteredAgain(s: Stmt, lo: nat, inside: Option<nat>, h: Hidden, inputs: seq<Resume>)
    requires s.Try? && s.finalizer.Some?
    ensures LooksSame(Runs(s, lo, inside, h, inputs), Runs(s, lo, inside, h.Keep(lo, Normally), inputs))
            <==> !Resumes(s, lo, inside, h, inputs)
    ensures Resumes(s, lo, inside, h, inputs) ==> !Inert(h.Record(lo), None) && AfterOldRecord(s, lo, inside, h, inputs)
  {
    hide Runs;
    hide RunsGuarded;
    hide Finally;
    var h' := h.Keep(lo, Normally);
    FinallyAlike(s, lo, inside, h, h', inputs);
    RunsOfFinally(s, lo, inside, h, inputs);
    RunsOfFinally(s, lo, inside, h', inputs);
    RecordAfterGuarded(s, lo, inside, h, inputs);
    RecordAfterGuarded(s, lo, inside, h', inputs);
    RecordAtEnd(s, lo, inside, h, inputs);
    RecordAtEnd(s, lo, inside, h', inputs);
  }

  /** What happens then: the old completion takes the place of the normal one. */
  ghost predicate AfterOldRecord(s: Stmt, lo: nat, inside: Option<nat>, h: Hidden, inputs: seq<Resume>)
    requires s.Try? && s.finalizer.Some?
  {
    Runs(s, lo, inside, h, inputs).comp == AfterFinally(h.Record(lo), Finally(s, lo, inside, h, inputs).h)
  }

  lemma RunsOfFinally(s: Stmt, lo: nat, inside: Option<nat>, h: Hidden, inputs: seq<Resume>)
    requires s.Try? && s.finalizer.Some?
    ensures var c := RunsGuarded(s, lo, inside, h, inputs);
            Runs(s, lo, inside, h, inputs)
            == if Stops(c.comp) then WithFinally(c, Finally(s, lo, inside, h, inputs), lo) else c
  {
  }

  /** How a try-finally statement leaves its entry. Entered with an empty one, it leaves an exception
      that it throws on, or whatever its finally block overrides, or is still waiting on; and nothing
      else. */
  lemma RecordLeft(s: Stmt, lo: nat, inside: Option<nat>, h: Hidden, inputs: seq<Resume>)
    requires s.Try? && s.finalizer.Some? && h.Record(lo) == Normally
    ensures var c, f := RunsGuarded(s, lo, inside, h, inputs), Finally(s, lo, inside, h, inputs);
            var left := Runs(s, lo, inside, h, inputs).h.Record(lo);
            && (left != Normally <==> Stops(c.comp) && c.comp != Normally && (c.comp.Throwing? || f.comp != Normally))
            && left in {Normally, c.comp}
  {
    hide Runs;
    hide RunsGuarded;
    hide Finally;
    RunsOfFinally(s, lo, inside, h, inputs);
    RecordAfterGuarded(s, lo, inside, h, inputs);
    RecordAtEnd(s, lo, inside, h, inputs);
  }

  /** A statement without a finally block leaves its entry empty. */
  lemma HandlerLeavesNothing(s: Stmt, lo: nat, inside: Option<nat>, h: Hidden, inputs: seq<Resume>)
    requires s.Try? && s.finalizer.None? && h.Record(lo) == Normally
    ensures Runs(s, lo, inside, h, inputs).h.Record(lo) == Normally
  {
    RecordAfterGuarded(s, lo, inside, h, inputs);
    RunsOfTry(s, lo, inside, h, inputs);
  }
}
