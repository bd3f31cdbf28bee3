/** When the runtime does what the language standard says. */
module GeneratorAgreement {
  import opened GeneratorContext
  import opened GeneratorPrograms
  import opened GeneratorRecords
  import opened GeneratorReentry
  import opened Wrappers

  // How the standard runs compound statements.

  lemma StandardOfThen(s: Stmt, inputs: seq<Resume>)
    requires s.Then?
    ensures var o := Standard(s.first, inputs);
            Standard(s, inputs) == if o.ending == Falls then Standard(s.second, o.inputs).After(o.log) else o
  {
  }

  lemma StandardOfLoop(s: Stmt, inputs: seq<Resume>)
    requires s.Loop?
    ensures var o := Standard(s.body, inputs).AtLabel();
            Standard(s, inputs)
            == if o.ending != Falls then o
               else if |o.inputs| < |inputs| then Standard(s, o.inputs).After(o.log)
               else o.(ending := Spins)
  {
  }

  lemma StandardOfGuarded(s: Stmt, inputs: seq<Resume>)
    requires s.Try?
    ensures var g := Standard(s.guarded, inputs);
            StandardGuarded(s, inputs)
            == if g.ending.Throws? && s.handler.Some?
               then Standard(s.handler.value, g.inputs).After(g.log + [Entered(g.ending.thrown)]) else g
  {
  }

  lemma StandardOfTry(s: Stmt, inputs: seq<Resume>)
    requires s.Try?
    ensures var c := StandardGuarded(s, inputs);
            Standard(s, inputs)
            == if s.finalizer.None? || c.ending in {Suspended, Spins} then c
               else var f := Standard(s.finalizer.value, c.inputs).After(c.log);
                    if f.ending == Falls then f.(ending := c.ending) else f
  {
  }

  // ---------------------------------------------------------------------------------------------
  // Plain programs
  // ---------------------------------------------------------------------------------------------

  /** A finally block without a jump and without a try-finally statement of its own. */
  predicate PlainFinalizer(s: Stmt) {
    match s
    case Jump(_) => false
    case Then(first, second) => PlainFinalizer(first) && PlainFinalizer(second)
    case Labelled(body) => PlainFinalizer(body)
    case Loop(body) => PlainFinalizer(body)
    case Try(guarded, handler, finalizer) =>
      finalizer.None? && PlainFinalizer(guarded) && (handler.Some? ==> PlainFinalizer(handler.value))
    case _ => true
  }

  /** Every finally block is plain, and no jump leaves more than one guarded region. `once` labels may
      be jumped to through one finally block, the first `inside` of them through none. */
  predicate Plain(s: Stmt, inside: nat, once: nat) {
    match s
    case Jump(k) => k < once
    case Then(first, second) => Plain(first, inside, once) && Plain(second, inside, once)
    case Labelled(body) => Plain(body, inside + 1, once + 1)
    case Loop(body) => Plain(body, inside + 1, once + 1)
    case Try(guarded, handler, finalizer) =>
      var inner, reach := if finalizer.Some? then 0 else inside, if finalizer.Some? then inside else once;
      && Plain(guarded, inner, reach)
      && (handler.Some? ==> Plain(handler.value, inner, reach))
      && (finalizer.Some? ==> PlainFinalizer(finalizer.value))
    case _ => true
  }

  ghost predicate Matches(comp: Comp, ending: Ending) {
    match comp
    case Normally => ending == Falls
    case Throwing(v) => ending == Throws(v)
    case Returning(v) => ending == Returns(v)
    case Jumping(k, _) => ending == Jumps(k)
    case Waiting => ending == Suspended
    case Spinning => ending == Spins
  }

  ghost predicate Same(r: Result, o: Outcome) {
    r.log == o.log && Matches(r.comp, o.ending) && r.inputs == o.inputs
  }

  /** A call was taken, or an exception caught. */
  ghost predicate Settles(log: seq<Event>) {
    exists i | 0 <= i < |log| :: log[i].Yielded? || log[i].Entered?
  }

  lemma SettlesBoth(a: seq<Event>, b: seq<Event>)
    ensures Settles(a + b) <==> Settles(a) || Settles(b)
  {
    if i :| 0 <= i < |a| && (a[i].Yielded? || a[i].Entered?) {
      assert (a + b)[i] == a[i];
    }
    if i :| 0 <= i < |b| && (b[i].Yielded? || b[i].Entered?) {
      assert (a + b)[|a| + i] == b[i];
    }
  }

  /** A plain finally block behaves as the standard says. An exception that is pending stays so until
      the block has been resumed or has caught something. */
  ghost predicate FinalizerAgrees(r: Result, o: Outcome, h: Hidden) {
    && Same(r, o)
    && !r.comp.Jumping?
    && r.h.rval == h.rval
    && r.h.pending in {None, h.pending}
    && (r.comp == Normally ==> r.h.pending == if Settles(o.log) then None else h.pending)
  }

  /** A plain finally block behaves as the standard says however it was entered. */
  lemma {:induction false} PlainFinalizerAgrees(s: Stmt, lo: nat, inside: Option<nat>, h: Hidden, inputs: seq<Resume>)
    requires PlainFinalizer(s)
    ensures FinalizerAgrees(Runs(s, lo, inside, h, inputs), Standard(s, inputs), h)
    decreases |inputs|, s, 1
  {
    match s {
      case Yield(v) => assert [Yielded(v)][0].Yielded?;
      case Then(_, _) => PlainThenAgrees(s, lo, inside, h, inputs);
      case Labelled(body) => PlainFinalizerAgrees(body, lo, Deeper(inside), h, inputs);
      case Loop(_) => PlainLoopAgrees(s, lo, inside, h, inputs);
      case Try(_, _, _) => PlainTryAgrees(s, lo, inside, h, inputs);
      case _ =>
    }
  }

  lemma {:induction false} PlainThenAgrees(s: Stmt, lo: nat, inside: Option<nat>, h: Hidden, inputs: seq<Resume>)
    requires s.Then? && PlainFinalizer(s)
    ensures FinalizerAgrees(Runs(s, lo, inside, h, inputs), Standard(s, inputs), h)
    decreases |inputs|, s, 0
  {
    hide Runs;
    hide Standard;
    hide Settles;
    RunsOfThen(s, lo, inside, h, inputs);
    StandardOfThen(s, inputs);
    var r := Runs(s.first, lo, inside, h, inputs);
    PlainFinalizerAgrees(s.first, lo, inside, h, inputs);
    if r.comp == Normally {
      PlainFinalizerAgrees(s.second, lo + Count(s.first), inside, r.h, r.inputs);
      SettlesBoth(r.log, Standard(s.second, r.inputs).log);
    }
  }

  lemma {:induction false} PlainLoopAgrees(s: Stmt, lo: nat, inside: Option<nat>, h: Hidden, inputs: seq<Resume>)
    requires s.Loop? && PlainFinalizer(s)
    ensures FinalizerAgrees(Runs(s, lo, inside, h, inputs), Standard(s, inputs), h)
    decreases |inputs|, s, 0
  {
    hide Runs;
    hide Standard;
    hide Settles;
    RunsOfLoop(s, lo, inside, h, inputs);
    StandardOfLoop(s, inputs);
    var r := Runs(s.body, lo, Deeper(inside), h, inputs);
    PlainFinalizerAgrees(s.body, lo, Deeper(inside), h, inputs);
    if r.comp == Normally && |r.inputs| < |inputs| {
      PlainFinalizerAgrees(s, lo, inside, r.h, r.inputs);
      SettlesBoth(r.log, Standard(s, r.inputs).log);
    }
  }

  lemma {:induction false} PlainTryAgrees(s: Stmt, lo: nat, inside: Option<nat>, h: Hidden, inputs: seq<Resume>)
    requires s.Try? && PlainFinalizer(s)
    ensures FinalizerAgrees(Runs(s, lo, inside, h, inputs), Standard(s, inputs), h)
    decreases |inputs|, s, 0
  {
    hide Runs;
    hide Standard;
    hide Settles;
    RunsOfTry(s, lo, inside, h, inputs);
    RunsOfGuarded(s, lo, inside, h, inputs);
    StandardOfTry(s, inputs);
    StandardOfGuarded(s, inputs);
    var g := Runs(s.guarded, lo + 1, Inner(s, inside), h, inputs);
    PlainFinalizerAgrees(s.guarded, lo + 1, Inner(s, inside), h, inputs);
    if g.comp.Throwing? && s.handler.Some? {
      PlainFinalizerAgrees(s.handler.value, LoOfHandler(s, lo), Inner(s, inside), OnHandler(g, lo), g.inputs);
      var c := Standard(s.handler.value, g.inputs);
      CatchSettles(g.log, g.comp.thrown, c.log);
    }
  }

  lemma CatchSettles(a: seq<Event>, v: Value, b: seq<Event>)
    ensures Settles(a + [Entered(v)] + b)
  {
    assert (a + [Entered(v)] + b)[|a|].Entered?;
  }

  // ---------------------------------------------------------------------------------------------
  // Runs in which nothing old is resumed
  // ---------------------------------------------------------------------------------------------

  /** No try statement in the run resumes what its entry held before. */
  ghost predicate NothingOld(s: Stmt, lo: nat, inside: Option<nat>, h: Hidden, inputs: seq<Resume>)
    decreases |inputs|, s, 1
  {
    match s
    case Then(first, second) =>
      var r := Runs(first, lo, inside, h, inputs);
      NothingOld(first, lo, inside, h, inputs)
      && (r.comp == Normally ==> NothingOld(second, lo + Count(first), inside, r.h, r.inputs))
    case Labelled(body) => NothingOld(body, lo, Deeper(inside), h, inputs)
    case Loop(body) =>
      var r := Runs(body, lo, Deeper(inside), h, inputs).AtLabel();
      NothingOld(body, lo, Deeper(inside), h, inputs)
      && (r.comp == Normally && |r.inputs| < |inputs| ==> NothingOld(s, lo, inside, r.h, r.inputs))
    case Try(_, _, finalizer) =>
      var c := RunsGuarded(s, lo, inside, h, inputs);
      NothingOldGuarded(s, lo, inside, h, inputs)
      && (finalizer.Some? && Stops(c.comp) ==>
            && NothingOld(finalizer.value, LoOfFinalizer(s, lo), inside, OnFinally(c, lo), c.inputs)
            && !Resumes(s, lo, inside, h, inputs))
    case _ => true
  }

  ghost predicate NothingOldGuarded(s: Stmt, lo: nat, inside: Option<nat>, h: Hidden, inputs: seq<Resume>)
    requires s.Try?
    decreases |inputs|, s, 0
  {
    var g := Runs(s.guarded, lo + 1, Inner(s, inside), h, inputs);
    && NothingOld(s.guarded, lo + 1, Inner(s, inside), h, inputs)
    && (g.comp.Throwing? && s.handler.Some? ==>
          NothingOld(s.handler.value, LoOfHandler(s, lo), Inner(s, inside), OnHandler(g, lo), g.inputs))
  }

  /** The value of the last return that went through a finally block to its end, according to the
      standard; `last`, if there is none. */
  function LastReturn(s: Stmt, inputs: seq<Resume>, last: Value): Value
    decreases |inputs|, s, 1
  {
    match s
    case Then(first, second) =>
      var o := Standard(first, inputs);
      var v := LastReturn(first, inputs, last);
      if o.ending == Falls then LastReturn(second, o.inputs, v) else v
    case Labelled(body) => LastReturn(body, inputs, last)
    case Loop(body) =>
      var o := Standard(body, inputs).AtLabel();
      var v := LastReturn(body, inputs, last);
      if o.ending == Falls && |o.inputs| < |inputs| then LastReturn(s, o.inputs, v) else v
    case Try(_, _, finalizer) =>
      var c := StandardGuarded(s, inputs);
      var v := LastReturnGuarded(s, inputs, last);
      if finalizer.None? || c.ending in {Suspended, Spins} then v
      else if Standard(finalizer.value, c.inputs).ending == Falls && c.ending.Returns? then c.ending.returned
      else LastReturn(finalizer.value, c.inputs, v)
    case _ => last
  }

  function LastReturnGuarded(s: Stmt, inputs: seq<Resume>, last: Value): Value
    requires s.Try?
    decreases |inputs|, s, 0
  {
    var g := Standard(s.guarded, inputs);
    var v := LastReturn(s.guarded, inputs, last);
    if g.ending.Throws? && s.handler.Some? then LastReturn(s.handler.value, g.inputs, v) else v
  }

  lemma {:induction false} PlainFinalizerReturnsNothing(s: Stmt, inputs: seq<Resume>, last: Value)
    requires PlainFinalizer(s)
    ensures LastReturn(s, inputs, last) == last
    decreases |inputs|, s
  {
    match s {
      case Then(first, second) =>
        PlainFinalizerReturnsNothing(first, inputs, last);
        PlainFinalizerReturnsNothing(second, Standard(first, inputs).inputs, last);
      case Labelled(body) =>
        PlainFinalizerReturnsNothing(body, inputs, last);
      case Loop(body) =>
        PlainFinalizerReturnsNothing(body, inputs, last);
        if |Standard(body, inputs).inputs| < |inputs| {
          PlainFinalizerReturnsNothing(s, Standard(body, inputs).inputs, last);
        }
      case Try(guarded, handler, _) =>
        PlainFinalizerReturnsNothing(guarded, inputs, last);
        if handler.Some? {
          PlainFinalizerReturnsNothing(handler.value, Standard(guarded, inputs).inputs, last);
        }
      case _ =>
    }
  }

  // ---------------------------------------------------------------------------------------------
  // Where they agree
  // ---------------------------------------------------------------------------------------------

  /** A result the standard agrees with, ready to be passed on: a jump that gets this far is direct
      unless it still has a finally block to go through. */
  ghost predicate Agrees(r: Result, o: Outcome, inside: Option<nat>, once: nat, last: Value) {
    && Same(r, o)
    && r.h.rval == last
    && (r.comp == Normally ==> r.h.pending.None?)
    && (r.comp.Jumping? ==> r.h.pending.None? && r.comp.k < once
                            && r.comp.direct == (inside.None? || r.comp.k < inside.value))
  }

  ghost predicate Reach(inside: Option<nat>, n: nat, once: nat) {
    n <= once && (if inside.Some? then inside.value == n else n == once)
  }

  /** On plain programs the runtime does what the standard says, statement by statement, for as long as
      nothing old is resumed. */
  lemma {:induction false} PlainAgrees(s: Stmt, lo: nat, inside: Option<nat>, n: nat, once: nat, h: Hidden,
                                       inputs: seq<Resume>)
    requires Plain(s, n, once) && h.pending.None? && Reach(inside, n, once) && NothingOld(s, lo, inside, h, inputs)
    ensures Agrees(Runs(s, lo, inside, h, inputs), Standard(s, inputs), inside, once, LastReturn(s, inputs, h.rval))
    decreases |inputs|, s, 2
  {
    match s {
      case Then(_, _) => PlainAgreesThen(s, lo, inside, n, once, h, inputs);
      case Labelled(body) =>
        PlainAgrees(body, lo, Deeper(inside), n + 1, once + 1, h, inputs);
      case Loop(_) => PlainAgreesLoop(s, lo, inside, n, once, h, inputs);
      case Try(_, _, _) => PlainAgreesTry(s, lo, inside, n, once, h, inputs);
      case _ =>
    }
  }

  lemma {:induction false} PlainAgreesThen(s: Stmt, lo: nat, inside: Option<nat>, n: nat, once: nat, h: Hidden,
                                           inputs: seq<Resume>)
    requires s.Then?
    requires Plain(s, n, once) && h.pending.None? && Reach(inside, n, once) && NothingOld(s, lo, inside, h, inputs)
    ensures Agrees(Runs(s, lo, inside, h, inputs), Standard(s, inputs), inside, once, LastReturn(s, inputs, h.rval))
    decreases |inputs|, s, 1
  {
    hide Runs;
    hide Standard;
    RunsOfThen(s, lo, inside, h, inputs);
    StandardOfThen(s, inputs);
    var r := Runs(s.first, lo, inside, h, inputs);
    PlainAgrees(s.first, lo, inside, n, once, h, inputs);
    if r.comp == Normally {
      PlainAgrees(s.second, lo + Count(s.first), inside, n, once, r.h, r.inputs);
    }
  }

  lemma {:induction false} PlainAgreesLoop(s: Stmt, lo: nat, inside: Option<nat>, n: nat, once: nat, h: Hidden,
                                           inputs: seq<Resume>)
    requires s.Loop?
    requires Plain(s, n, once) && h.pending.None? && Reach(inside, n, once) && NothingOld(s, lo, inside, h, inputs)
    ensures Agrees(Runs(s, lo, inside, h, inputs), Standard(s, inputs), inside, once, LastReturn(s, inputs, h.rval))
    decreases |inputs|, s, 1
  {
    hide Runs;
    hide Standard;
    RunsOfLoop(s, lo, inside, h, inputs);
    StandardOfLoop(s, inputs);
    var r := Runs(s.body, lo, Deeper(inside), h, inputs);
    PlainAgrees(s.body, lo, Deeper(inside), n + 1, once + 1, h, inputs);
    if r.AtLabel().comp == Normally && |r.inputs| < |inputs| {
      PlainAgrees(s, lo, inside, n, once, r.h, r.inputs);
    }
  }

  lemma {:induction false} PlainAgreesTry(s: Stmt, lo: nat, inside: Option<nat>, n: nat, once: nat, h: Hidden,
                                          inputs: seq<Resume>)
    requires s.Try?
    requires Plain(s, n, once) && h.pending.None? && Reach(inside, n, once) && NothingOld(s, lo, inside, h, inputs)
    ensures Agrees(Runs(s, lo, inside, h, inputs), Standard(s, inputs), inside, once, LastReturn(s, inputs, h.rval))
    decreases |inputs|, s, 1
  {
    hide Runs;
    hide RunsGuarded;
    hide Standard;
    hide StandardGuarded;
    hide LastReturnGuarded;
    hide NothingOldGuarded;
    PlainAgreesGuarded(s, lo, inside, n, once, h, inputs);
    if s.finalizer.Some? {
      hide LastReturn;
      TryAgreesExactly(s, lo, inside, n, once, h, inputs);
    } else {
      RunsOfTry(s, lo, inside, h, inputs);
      StandardOfTry(s, inputs);
    }
  }

  lemma {:induction false} PlainAgreesGuarded(s: Stmt, lo: nat, inside: Option<nat>, n: nat, once: nat, h: Hidden,
                                              inputs: seq<Resume>)
    requires s.Try? && Plain(s, n, once) && h.pending.None? && Reach(inside, n, once)
    requires NothingOldGuarded(s, lo, inside, h, inputs)
    ensures Agrees(RunsGuarded(s, lo, inside, h, inputs), StandardGuarded(s, inputs), Inner(s, inside),
                   if s.finalizer.Some? then n else once, LastReturnGuarded(s, inputs, h.rval))
    decreases |inputs|, s, 0
  {
    hide Runs;
    hide Standard;
    hide NothingOld;
    hide LastReturn;
    RunsOfGuarded(s, lo, inside, h, inputs);
    StandardOfGuarded(s, inputs);
    var inner := Inner(s, inside);
    var region, reach := if s.finalizer.Some? then 0 else n, if s.finalizer.Some? then n else once;
    var g := Runs(s.guarded, lo + 1, inner, h, inputs);
    PlainAgrees(s.guarded, lo + 1, inner, region, reach, h, inputs);
    if g.comp.Throwing? && s.handler.Some? {
      PlainAgrees(s.handler.value, LoOfHandler(s, lo), inner, region, reach, OnHandler(g, lo), g.inputs);
    }
  }

  /** A try-finally statement whose guarded part does as the standard says does so too, if and only if it
      does not resume anything old. */
  lemma TryAgreesExactly(s: Stmt, lo: nat, inside: Option<nat>, n: nat, once: nat, h: Hidden, inputs: seq<Resume>)
    requires s.Try? && s.finalizer.Some? && PlainFinalizer(s.finalizer.value) && Reach(inside, n, once)
    requires Agrees(RunsGuarded(s, lo, inside, h, inputs), StandardGuarded(s, inputs), Some(0), n,
                    LastReturnGuarded(s, inputs, h.rval))
    ensures Agrees(Runs(s, lo, inside, h, inputs), Standard(s, inputs), inside, once, LastReturn(s, inputs, h.rval))
            <==> !Resumes(s, lo, inside, h, inputs)
  {
    hide PlainFinalizer;
    hide Runs;
    hide RunsGuarded;
    hide Standard;
    hide StandardGuarded;
    hide LastReturnGuarded;
    hide Settles;
    var c := RunsGuarded(s, lo, inside, h, inputs);
    RunsOfFinally(s, lo, inside, h, inputs);
    RecordAtEnd(s, lo, inside, h, inputs);
    StandardOfTry(s, inputs);
    if Stops(c.comp) {
      PlainFinalizerAgrees(s.finalizer.value, LoOfFinalizer(s, lo), inside, OnFinally(c, lo), c.inputs);
      PlainFinalizerReturnsNothing(s.finalizer.value, c.inputs, LastReturnGuarded(s, inputs, h.rval));
    }
  }

  // ---------------------------------------------------------------------------------------------
  // Statement by statement
  // ---------------------------------------------------------------------------------------------

  /** Every statement of the run, in the state in which the run comes to it, does what the standard says;
      so do plain finally blocks in any case. */
  ghost predicate AllAgree(s: Stmt, lo: nat, inside: Option<nat>, n: nat, once: nat, h: Hidden, inputs: seq<Resume>)
    decreases |inputs|, s, 1
  {
    && Agrees(Runs(s, lo, inside, h, inputs), Standard(s, inputs), inside, once, LastReturn(s, inputs, h.rval))
    && match s
       case Then(first, second) =>
         var r := Runs(first, lo, inside, h, inputs);
         && AllAgree(first, lo, inside, n, once, h, inputs)
         && (r.comp == Normally ==> AllAgree(second, lo + Count(first), inside, n, once, r.h, r.inputs))
       case Labelled(body) => AllAgree(body, lo, Deeper(inside), n + 1, once + 1, h, inputs)
       case Loop(body) =>
         var r := Runs(body, lo, Deeper(inside), h, inputs).AtLabel();
         && AllAgree(body, lo, Deeper(inside), n + 1, once + 1, h, inputs)
         && (r.comp == Normally && |r.inputs| < |inputs| ==> AllAgree(s, lo, inside, n, once, r.h, r.inputs))
       case Try(_, _, _) => AllAgreeGuarded(s, lo, inside, n, once, h, inputs)
       case _ => true
  }

  ghost predicate AllAgreeGuarded(s: Stmt, lo: nat, inside: Option<nat>, n: nat, once: nat, h: Hidden,
                                  inputs: seq<Resume>)
    requires s.Try?
    decreases |inputs|, s, 0
  {
    var inner, g := Inner(s, inside), Runs(s.guarded, lo + 1, Inner(s, inside), h, inputs);
    var region, reach := if s.finalizer.Some? then 0 else n, if s.finalizer.Some? then n else once;
    && AllAgree(s.guarded, lo + 1, inner, region, reach, h, inputs)
    && (g.comp.Throwing? && s.handler.Some? ==>
          AllAgree(s.handler.value, LoOfHandler(s, lo), inner, region, reach, OnHandler(g, lo), g.inputs))
  }

  lemma {:induction false} PlainIsNotOld(s: Stmt, lo: nat, inside: Option<nat>, h: Hidden, inputs: seq<Resume>)
    requires PlainFinalizer(s)
    ensures NothingOld(s, lo, inside, h, inputs)
    decreases |inputs|, s
  {
    hide Runs;
    match s {
      case Then(first, second) =>
        var r := Runs(first, lo, inside, h, inputs);
        PlainIsNotOld(first, lo, inside, h, inputs);
        PlainIsNotOld(second, lo + Count(first), inside, r.h, r.inputs);
      case Labelled(body) => PlainIsNotOld(body, lo, Deeper(inside), h, inputs);
      case Loop(body) =>
        var r := Runs(body, lo, Deeper(inside), h, inputs);
        PlainIsNotOld(body, lo, Deeper(inside), h, inputs);
        if |r.inputs| < |inputs| {
          PlainIsNotOld(s, lo, inside, r.h, r.inputs);
        }
      case Try(guarded, handler, _) =>
        var g := Runs(guarded, lo + 1, Inner(s, inside), h, inputs);
        PlainIsNotOld(guarded, lo + 1, Inner(s, inside), h, inputs);
        if handler.Some? {
          PlainIsNotOld(handler.value, LoOfHandler(s, lo), Inner(s, inside), OnHandler(g, lo), g.inputs);
        }
      case _ =>
    }
  }

  /** For every plain statement, whatever its loops, all of its run does what the standard says if and only
      if nothing old is resumed. */
  lemma {:induction false} AgreesThroughout(s: Stmt, lo: nat, inside: Option<nat>, n: nat, once: nat, h: Hidden,
                                            inputs: seq<Resume>)
    requires Plain(s, n, once) && h.pending.None? && Reach(inside, n, once)
    ensures AllAgree(s, lo, inside, n, once, h, inputs) <==> NothingOld(s, lo, inside, h, inputs)
    decreases |inputs|, s, 2
  {
    hide Runs;
    hide Standard;
    hide LastReturn;
    if NothingOld(s, lo, inside, h, inputs) {
      PlainAgrees(s, lo, inside, n, once, h, inputs);
    }
    match s {
      case Then(first, second) =>
        var r := Runs(first, lo, inside, h, inputs);
        AgreesThroughout(first, lo, inside, n, once, h, inputs);
        if NothingOld(first, lo, inside, h, inputs) {
          PlainAgrees(first, lo, inside, n, once, h, inputs);
          if r.comp == Normally {
            AgreesThroughout(second, lo + Count(first), inside, n, once, r.h, r.inputs);
          }
        }
      case Labelled(body) => AgreesThroughout(body, lo, Deeper(inside), n + 1, once + 1, h, inputs);
      case Loop(body) =>
        var r := Runs(body, lo, Deeper(inside), h, inputs);
        AgreesThroughout(body, lo, Deeper(inside), n + 1, once + 1, h, inputs);
        if NothingOld(body, lo, Deeper(inside), h, inputs) {
          PlainAgrees(body, lo, Deeper(inside), n + 1, once + 1, h, inputs);
          if r.AtLabel().comp == Normally && |r.inputs| < |inputs| {
            AgreesThroughout(s, lo, inside, n, once, r.h, r.inputs);
          }
        }
      case Try(_, _, _) => TryAgreesThroughout(s, lo, inside, n, once, h, inputs);
      case _ =>
    }
  }

  lemma {:induction false} TryAgreesThroughout(s: Stmt, lo: nat, inside: Option<nat>, n: nat, once: nat, h: Hidden,
                                               inputs: seq<Resume>)
    requires s.Try? && Plain(s, n, once) && h.pending.None? && Reach(inside, n, once)
    requires NothingOld(s, lo, inside, h, inputs) ==>
               Agrees(Runs(s, lo, inside, h, inputs), Standard(s, inputs), inside, once, LastReturn(s, inputs, h.rval))
    ensures AllAgree(s, lo, inside, n, once, h, inputs) <==> NothingOld(s, lo, inside, h, inputs)
    decreases |inputs|, s, 1
  {
    hide Runs;
    hide RunsGuarded;
    hide Standard;
    hide LastReturn;
    hide Resumes;
    hide NothingOldGuarded;
    hide AllAgreeGuarded;
    GuardedAgreesThroughout(s, lo, inside, n, once, h, inputs);
    if s.finalizer.Some? && NothingOldGuarded(s, lo, inside, h, inputs) {
      var c := RunsGuarded(s, lo, inside, h, inputs);
      PlainAgreesGuarded(s, lo, inside, n, once, h, inputs);
      TryAgreesExactly(s, lo, inside, n, once, h, inputs);
      PlainIsNotOld(s.finalizer.value, LoOfFinalizer(s, lo), inside, OnFinally(c, lo), c.inputs);
    }
  }

  lemma {:induction false} GuardedAgreesThroughout(s: Stmt, lo: nat, inside: Option<nat>, n: nat, once: nat, h: Hidden,
                                                   inputs: seq<Resume>)
    requires s.Try? && Plain(s, n, once) && h.pending.None? && Reach(inside, n, once)
    ensures AllAgreeGuarded(s, lo, inside, n, once, h, inputs) <==> NothingOldGuarded(s, lo, inside, h, inputs)
    decreases |inputs|, s, 0
  {
    hide Runs;
    hide AllAgree;
    hide NothingOld;
    var inner, g := Inner(s, inside), Runs(s.guarded, lo + 1, Inner(s, inside), h, inputs);
    var region, reach := if s.finalizer.Some? then 0 else n, if s.finalizer.Some? then n else once;
    AgreesThroughout(s.guarded, lo + 1, inner, region, reach, h, inputs);
    if g.comp.Throwing? && s.handler.Some? {
      AgreesThroughout(s.handler.value, LoOfHandler(s, lo), inner, region, reach, OnHandler(g, lo), g.inputs);
    }
  }

  // ---------------------------------------------------------------------------------------------
  // Loops that leave nothing behind
  // ---------------------------------------------------------------------------------------------

  predicate NoFinally(s: Stmt) {
    match s
    case Then(first, second) => NoFinally(first) && NoFinally(second)
    case Labelled(body) => NoFinally(body)
    case Loop(body) => NoFinally(body)
    case Try(guarded, handler, finalizer) =>
      finalizer.None? && NoFinally(guarded) && (handler.Some? ==> NoFinally(handler.value))
    case _ => true
  }

  /** Nothing that a finally block has let through is caught again: no try-finally statement lies in the
      guarded part of a try-catch statement. */
  predicate CatchesFirst(s: Stmt) {
    match s
    case Then(first, second) => CatchesFirst(first) && CatchesFirst(second)
    case Labelled(body) => CatchesFirst(body)
    case Loop(body) => CatchesFirst(body)
    case Try(guarded, handler, finalizer) =>
      && (if handler.Some? then NoFinally(guarded) && CatchesFirst(handler.value) else CatchesFirst(guarded))
      && (finalizer.Some? ==> NoFinally(finalizer.value))
    case _ => true
  }

  /** So it is in every loop. */
  predicate LoopsCatchFirst(s: Stmt) {
    match s
    case Then(first, second) => LoopsCatchFirst(first) && LoopsCatchFirst(second)
    case Labelled(body) => LoopsCatchFirst(body)
    case Loop(body) => CatchesFirst(body)
    case Try(guarded, handler, finalizer) =>
      && LoopsCatchFirst(guarded)
      && (handler.Some? ==> LoopsCatchFirst(handler.value))
      && (finalizer.Some? ==> LoopsCatchFirst(finalizer.value))
    case _ => true
  }

  /** The finally blocks do not jump. */
  predicate FinallysStay(s: Stmt) {
    match s
    case Then(first, second) => FinallysStay(first) && FinallysStay(second)
    case Labelled(body) => FinallysStay(body)
    case Loop(body) => FinallysStay(body)
    case Try(guarded, handler, finalizer) =>
      && FinallysStay(guarded)
      && (handler.Some? ==> FinallysStay(handler.value))
      && (finalizer.Some? ==> PlainFinalizer(finalizer.value))
    case _ => true
  }

  lemma {:induction false} PlainStays(s: Stmt, n: nat, once: nat)
    requires Plain(s, n, once)
    ensures FinallysStay(s)
    decreases s
  {
    match s {
      case Then(first, second) =>
        PlainStays(first, n, once);
        PlainStays(second, n, once);
      case Labelled(body) => PlainStays(body, n + 1, once + 1);
      case Loop(body) => PlainStays(body, n + 1, once + 1);
      case Try(guarded, handler, finalizer) =>
        var inner, reach := if finalizer.Some? then 0 else n, if finalizer.Some? then n else once;
        PlainStays(guarded, inner, reach);
        if handler.Some? {
          PlainStays(handler.value, inner, reach);
        }
      case _ =>
    }
  }

  ghost predicate Empty(h: Hidden, lo: nat, hi: nat) {
    forall i: nat | lo <= i < hi :: h.Record(i) == Normally
  }

  lemma EmptyWithin(h: Hidden, lo: nat, hi: nat, a: nat, b: nat)
    requires Empty(h, lo, hi) && lo <= a && b <= hi
    ensures Empty(h, a, b)
  {
  }

  lemma EmptyStays(h: Hidden, h': Hidden, lo: nat, hi: nat, a: nat, b: nat)
    requires Empty(h, lo, hi) && SameOutside(h, h', a, b) && (hi <= a || b <= lo)
    ensures Empty(h', lo, hi)
  {
    forall i: nat | lo <= i < hi ensures h'.Record(i) == Normally {
      assert h.Record(i) == h'.Record(i);
    }
  }

  lemma EmptyBoth(h: Hidden, lo: nat, mid: nat, hi: nat)
    requires Empty(h, lo, mid) && Empty(h, mid, hi)
    ensures Empty(h, lo, hi)
  {
  }

  /** Without finally blocks entries stay empty. */
  lemma {:induction false} NoFinallyEmpty(s: Stmt, lo: nat, inside: Option<nat>, h: Hidden, inputs: seq<Resume>)
    requires NoFinally(s) && Empty(h, lo, lo + Count(s))
    ensures NothingOld(s, lo, inside, h, inputs) && Empty(Runs(s, lo, inside, h, inputs).h, lo, lo + Count(s))
    decreases |inputs|, s, 1
  {
    match s {
      case Then(_, _) => NoFinallyThen(s, lo, inside, h, inputs);
      case Labelled(body) => NoFinallyEmpty(body, lo, Deeper(inside), h, inputs);
      case Loop(body) =>
        hide Runs;
        hide Empty;
        RunsOfLoop(s, lo, inside, h, inputs);
        var r := Runs(body, lo, Deeper(inside), h, inputs);
        NoFinallyEmpty(body, lo, Deeper(inside), h, inputs);
        if |r.inputs| < |inputs| {
          NoFinallyEmpty(s, lo, inside, r.h, r.inputs);
        }
      case Try(_, _, _) => NoFinallyTry(s, lo, inside, h, inputs);
      case _ =>
    }
  }

  lemma {:induction false} NoFinallyThen(s: Stmt, lo: nat, inside: Option<nat>, h: Hidden, inputs: seq<Resume>)
    requires s.Then? && NoFinally(s) && Empty(h, lo, lo + Count(s))
    ensures NothingOld(s, lo, inside, h, inputs) && Empty(Runs(s, lo, inside, h, inputs).h, lo, lo + Count(s))
    decreases |inputs|, s, 0
  {
    hide Runs;
    hide Empty;
    hide SameOutside;
    RunsOfThen(s, lo, inside, h, inputs);
    var mid, hi, r := lo + Count(s.first), lo + Count(s), Runs(s.first, lo, inside, h, inputs);
    EmptyWithin(h, lo, hi, lo, mid);
    EmptyWithin(h, lo, hi, mid, hi);
    NoFinallyEmpty(s.first, lo, inside, h, inputs);
    KeepsOthers(s.first, lo, inside, h, inputs);
    EmptyStays(h, r.h, mid, hi, lo, mid);
    if r.comp == Normally {
      var q := Runs(s.second, mid, inside, r.h, r.inputs);
      NoFinallyEmpty(s.second, mid, inside, r.h, r.inputs);
      KeepsOthers(s.second, mid, inside, r.h, r.inputs);
      EmptyStays(r.h, q.h, lo, mid, mid, hi);
      EmptyBoth(q.h, lo, mid, hi);
    } else {
      EmptyBoth(r.h, lo, mid, hi);
    }
  }

  lemma {:induction false} NoFinallyTry(s: Stmt, lo: nat, inside: Option<nat>, h: Hidden, inputs: seq<Resume>)
    requires s.Try? && s.finalizer.None? && NoFinally(s.guarded) && (s.handler.Some? ==> NoFinally(s.handler.value))
    requires Empty(h, lo, lo + Count(s))
    ensures NothingOld(s, lo, inside, h, inputs) && Empty(Runs(s, lo, inside, h, inputs).h, lo, lo + Count(s))
    decreases |inputs|, s, 0
  {
    hide Runs;
    hide Empty;
    hide SameOutside;
    RunsOfTry(s, lo, inside, h, inputs);
    RunsOfGuarded(s, lo, inside, h, inputs);
    var inner, mid, hi := Inner(s, inside), LoOfHandler(s, lo), lo + Count(s);
    var g := Runs(s.guarded, lo + 1, inner, h, inputs);
    EmptyWithin(h, lo, hi, lo + 1, mid);
    NoFinallyEmpty(s.guarded, lo + 1, inner, h, inputs);
    EmptyAroundGuarded(s, lo, inside, h, inputs);
    if g.comp.Throwing? && s.handler.Some? {
      var h1 := OnHandler(g, lo);
      EmptyWithin(g.h, lo, hi, lo + 1, hi);
      EmptyAtHandler(g, lo, hi);
      EmptyWithin(h1, lo, hi, lo, mid);
      EmptyWithin(h1, lo, hi, mid, hi);
      NoFinallyEmpty(s.handler.value, mid, inner, h1, g.inputs);
      KeepsOthers(s.handler.value, mid, inner, h1, g.inputs);
      var q := Runs(s.handler.value, mid, inner, h1, g.inputs);
      EmptyStays(h1, q.h, lo, mid, mid, hi);
      EmptyBoth(q.h, lo, mid, hi);
    }
  }

  lemma EmptyAroundGuarded(s: Stmt, lo: nat, inside: Option<nat>, h: Hidden, inputs: seq<Resume>)
    requires s.Try? && Empty(h, lo, lo + Count(s))
    ensures var g := Runs(s.guarded, lo + 1, Inner(s, inside), h, inputs);
            && Empty(g.h, lo, lo + 1) && Empty(g.h, LoOfHandler(s, lo), lo + Count(s))
            && (Empty(g.h, lo + 1, LoOfHandler(s, lo)) ==> Empty(g.h, lo, lo + Count(s)))
  {
    hide Runs;
    KeepsOthers(s.guarded, lo + 1, Inner(s, inside), h, inputs);
    var g := Runs(s.guarded, lo + 1, Inner(s, inside), h, inputs);
    EmptyStays(h, g.h, lo, lo + 1, lo + 1, LoOfHandler(s, lo));
    EmptyStays(h, g.h, LoOfHandler(s, lo), lo + Count(s), lo + 1, LoOfHandler(s, lo));
  }

  lemma EmptyAtHandler(g: Result, lo: nat, hi: nat)
    requires Empty(g.h, lo + 1, hi)
    ensures Empty(OnHandler(g, lo), lo, hi)
  {
    forall i: nat | lo <= i < hi ensures OnHandler(g, lo).Record(i) == Normally {
      assert i > lo ==> g.h.Record(i) == Normally;
    }
  }

  predicate GoesOn(comp: Comp) {
    comp.Normally? || comp.Jumping?
  }

  /** A statement that ends normally or by a jump leaves its entries empty, if exceptions that a finally
      block has let through are not caught within it and its finally blocks do not jump. */
  lemma {:induction false} LeavesEmpty(s: Stmt, lo: nat, inside: Option<nat>, h: Hidden, inputs: seq<Resume>)
    requires CatchesFirst(s) && FinallysStay(s) && Empty(h, lo, lo + Count(s))
    ensures NothingOld(s, lo, inside, h, inputs)
    ensures var r := Runs(s, lo, inside, h, inputs); GoesOn(r.comp) ==> Empty(r.h, lo, lo + Count(s))
    decreases |inputs|, s, 2
  {
    match s {
      case Then(_, _) => LeavesEmptyThen(s, lo, inside, h, inputs);
      case Labelled(body) =>
        hide Runs;
        RunsOfLabelled(s, lo, inside, h, inputs);
        LeavesEmpty(body, lo, Deeper(inside), h, inputs);
      case Loop(body) =>
        hide Runs;
        hide Empty;
        RunsOfLoop(s, lo, inside, h, inputs);
        var r := Runs(body, lo, Deeper(inside), h, inputs);
        LeavesEmpty(body, lo, Deeper(inside), h, inputs);
        if r.AtLabel().comp == Normally && |r.inputs| < |inputs| {
          LeavesEmpty(s, lo, inside, r.h, r.inputs);
        }
      case Try(_, _, _) => LeavesEmptyTry(s, lo, inside, h, inputs);
      case _ =>
    }
  }

  lemma {:induction false} LeavesEmptyThen(s: Stmt, lo: nat, inside: Option<nat>, h: Hidden, inputs: seq<Resume>)
    requires s.Then? && CatchesFirst(s) && FinallysStay(s) && Empty(h, lo, lo + Count(s))
    ensures NothingOld(s, lo, inside, h, inputs)
    ensures var r := Runs(s, lo, inside, h, inputs); GoesOn(r.comp) ==> Empty(r.h, lo, lo + Count(s))
    decreases |inputs|, s, 1
  {
    hide Runs;
    hide Empty;
    hide SameOutside;
    RunsOfThen(s, lo, inside, h, inputs);
    var mid, hi, r := lo + Count(s.first), lo + Count(s), Runs(s.first, lo, inside, h, inputs);
    EmptyWithin(h, lo, hi, lo, mid);
    EmptyWithin(h, lo, hi, mid, hi);
    LeavesEmpty(s.first, lo, inside, h, inputs);
    KeepsOthers(s.first, lo, inside, h, inputs);
    EmptyStays(h, r.h, mid, hi, lo, mid);
    if r.comp == Normally {
      var q := Runs(s.second, mid, inside, r.h, r.inputs);
      LeavesEmpty(s.second, mid, inside, r.h, r.inputs);
      KeepsOthers(s.second, mid, inside, r.h, r.inputs);
      EmptyStays(r.h, q.h, lo, mid, mid, hi);
      if GoesOn(q.comp) {
        EmptyBoth(q.h, lo, mid, hi);
      }
    } else if GoesOn(r.comp) {
      EmptyBoth(r.h, lo, mid, hi);
    }
  }

  /** Before the finally block, the statement's own entry is empty, and so are those of the block. */
  lemma {:induction false} LeavesEmptyGuarded(s: Stmt, lo: nat, inside: Option<nat>, h: Hidden, inputs: seq<Resume>)
    requires s.Try? && CatchesFirst(s) && FinallysStay(s) && Empty(h, lo, lo + Count(s))
    ensures NothingOldGuarded(s, lo, inside, h, inputs)
    ensures var c, end := RunsGuarded(s, lo, inside, h, inputs), LoOfFinalizer(s, lo);
            && Empty(c.h, lo, lo + 1) && Empty(c.h, end, lo + Count(s))
            && (GoesOn(c.comp) ==> Empty(c.h, lo, end))
    decreases |inputs|, s, 0
  {
    hide Runs;
    hide Empty;
    hide SameOutside;
    RunsOfGuarded(s, lo, inside, h, inputs);
    var inner, mid, end, hi := Inner(s, inside), LoOfHandler(s, lo), LoOfFinalizer(s, lo), lo + Count(s);
    var g := Runs(s.guarded, lo + 1, inner, h, inputs);
    EmptyWithin(h, lo, hi, lo + 1, mid);
    EmptyAroundGuarded(s, lo, inside, h, inputs);
    EmptyWithin(g.h, mid, hi, end, hi);
    if s.handler.None? {
      LeavesEmpty(s.guarded, lo + 1, inner, h, inputs);
      if GoesOn(g.comp) {
        EmptyWithin(g.h, lo, hi, lo, end);
      }
    } else {
      NoFinallyEmpty(s.guarded, lo + 1, inner, h, inputs);
      EmptyWithin(g.h, lo, hi, lo, end);
      if g.comp.Throwing? {
        EmptyWithin(g.h, lo, hi, lo + 1, hi);
        EmptyAtHandler(g, lo, hi);
        LeavesEmptyHandler(s, lo, inner, OnHandler(g, lo), g.inputs);
      }
    }
  }

  lemma {:induction false} LeavesEmptyHandler(s: Stmt, lo: nat, inner: Option<nat>, h: Hidden, inputs: seq<Resume>)
    requires s.Try? && s.handler.Some? && CatchesFirst(s) && FinallysStay(s) && Empty(h, lo, lo + Count(s))
    ensures NothingOld(s.handler.value, LoOfHandler(s, lo), inner, h, inputs)
    ensures var c, end := Runs(s.handler.value, LoOfHandler(s, lo), inner, h, inputs), LoOfFinalizer(s, lo);
            && Empty(c.h, lo, lo + 1) && Empty(c.h, end, lo + Count(s))
            && (GoesOn(c.comp) ==> Empty(c.h, lo, end))
    decreases |inputs|, s, -1
  {
    hide Runs;
    hide Empty;
    hide SameOutside;
    var mid, end, hi := LoOfHandler(s, lo), LoOfFinalizer(s, lo), lo + Count(s);
    var c := Runs(s.handler.value, mid, inner, h, inputs);
    EmptyWithin(h, lo, hi, lo, mid);
    EmptyWithin(h, lo, hi, mid, end);
    EmptyWithin(h, lo, hi, end, hi);
    LeavesEmpty(s.handler.value, mid, inner, h, inputs);
    KeepsOthers(s.handler.value, mid, inner, h, inputs);
    EmptyStays(h, c.h, lo, mid, mid, end);
    EmptyStays(h, c.h, end, hi, mid, end);
    EmptyWithin(c.h, lo, mid, lo, lo + 1);
    if GoesOn(c.comp) {
      EmptyBoth(c.h, lo, mid, end);
    }
  }

  lemma {:induction false} LeavesEmptyTry(s: Stmt, lo: nat, inside: Option<nat>, h: Hidden, inputs: seq<Resume>)
    requires s.Try? && CatchesFirst(s) && FinallysStay(s) && Empty(h, lo, lo + Count(s))
    ensures NothingOld(s, lo, inside, h, inputs)
    ensures var r := Runs(s, lo, inside, h, inputs); GoesOn(r.comp) ==> Empty(r.h, lo, lo + Count(s))
    decreases |inputs|, s, 1
  {
    hide Runs;
    hide RunsGuarded;
    hide Empty;
    hide SameOutside;
    hide NothingOldGuarded;
    LeavesEmptyGuarded(s, lo, inside, h, inputs);
    var c, end, hi := RunsGuarded(s, lo, inside, h, inputs), LoOfFinalizer(s, lo), lo + Count(s);
    EmptyOwn(c.h, lo);
    if s.finalizer.None? {
      RunsOfTry(s, lo, inside, h, inputs);
    } else {
      hide Finally;
      RunsOfFinally(s, lo, inside, h, inputs);
      if GoesOn(c.comp) {
        EmptyBoth(c.h, lo, end, hi);
      }
      if Stops(c.comp) {
        FinallyLeavesEmpty(s, lo, inside, h, inputs);
        RecordAtEnd(s, lo, inside, h, inputs);
        EmptyAtEnd(c, Finally(s, lo, inside, h, inputs), lo, hi);
      }
    }
  }

  lemma EmptyOwn(h: Hidden, lo: nat)
    requires Empty(h, lo, lo + 1)
    ensures h.Record(lo) == Normally
  {
  }

  lemma EmptyAtEnd(c: Result, f: Result, lo: nat, hi: nat)
    requires GoesOn(c.comp) ==> Empty(f.h, lo + 1, hi)
    requires f.h.Record(lo) == (if c.comp == Normally then c.h.Record(lo) else c.comp)
    requires Stops(c.comp) && !f.comp.Jumping? && c.h.Record(lo) == Normally
    ensures var r := WithFinally(c, f, lo); GoesOn(r.comp) && f.comp == Normally ==> Empty(r.h, lo, hi)
    ensures GoesOn(WithFinally(c, f, lo).comp) ==> f.comp == Normally
  {
    var r := WithFinally(c, f, lo);
    if GoesOn(r.comp) && f.comp == Normally && GoesOn(c.comp) {
      forall i: nat | lo <= i < hi ensures r.h.Record(i) == Normally {
        assert i > lo ==> f.h.Record(i) == Normally;
      }
    }
  }

  lemma {:induction false} FinallyLeavesEmpty(s: Stmt, lo: nat, inside: Option<nat>, h: Hidden, inputs: seq<Resume>)
    requires s.Try? && s.finalizer.Some? && NoFinally(s.finalizer.value) && PlainFinalizer(s.finalizer.value)
    requires var c, end := RunsGuarded(s, lo, inside, h, inputs), LoOfFinalizer(s, lo);
             Empty(c.h, end, lo + Count(s)) && (GoesOn(c.comp) ==> Empty(c.h, lo, end))
    ensures var c, f := RunsGuarded(s, lo, inside, h, inputs), Finally(s, lo, inside, h, inputs);
            && NothingOld(s.finalizer.value, LoOfFinalizer(s, lo), inside, OnFinally(c, lo), c.inputs)
            && !f.comp.Jumping?
            && (GoesOn(c.comp) ==> Empty(f.h, lo + 1, lo + Count(s)))
  {
    hide Runs;
    hide RunsGuarded;
    hide Empty;
    hide SameOutside;
    hide PlainFinalizer;
    var c, end, hi := RunsGuarded(s, lo, inside, h, inputs), LoOfFinalizer(s, lo), lo + Count(s);
    var h1, f := OnFinally(c, lo), Finally(s, lo, inside, h, inputs);
    EmptyOnFinally(c, lo, end, hi);
    PlainFinalizerAgrees(s.finalizer.value, end, inside, h1, c.inputs);
    NoFinallyEmpty(s.finalizer.value, end, inside, h1, c.inputs);
    KeepsOthers(s.finalizer.value, end, inside, h1, c.inputs);
    if GoesOn(c.comp) {
      EmptyWithin(c.h, lo, end, lo + 1, end);
      EmptyOnFinally(c, lo, lo + 1, end);
      EmptyStays(h1, f.h, lo + 1, end, end, hi);
      EmptyBoth(f.h, lo + 1, end, hi);
    }
  }

  lemma EmptyOnFinally(c: Result, lo: nat, a: nat, b: nat)
    requires Empty(c.h, a, b) && lo < a
    ensures Empty(OnFinally(c, lo), a, b)
  {
    forall i: nat | a <= i < b ensures OnFinally(c, lo).Record(i) == Normally {
      assert c.h.Record(i) == Normally;
    }
  }

  lemma {:induction false} PlainHasNoFinally(s: Stmt)
    requires PlainFinalizer(s)
    ensures NoFinally(s)
  {
    match s {
      case Then(first, second) =>
        PlainHasNoFinally(first);
        PlainHasNoFinally(second);
      case Labelled(body) => PlainHasNoFinally(body);
      case Loop(body) => PlainHasNoFinally(body);
      case Try(guarded, handler, _) =>
        PlainHasNoFinally(guarded);
        if handler.Some? {
          PlainHasNoFinally(handler.value);
        }
      case _ =>
    }
  }

  /** In a program that starts with empty entries, enters statements outside loops once, and catches
      nothing late in loops, nothing old is ever resumed. */
  lemma {:induction false} OldIsNeverResumed(s: Stmt, lo: nat, inside: Option<nat>, h: Hidden, inputs: seq<Resume>)
    requires LoopsCatchFirst(s) && FinallysStay(s) && Empty(h, lo, lo + Count(s))
    ensures NothingOld(s, lo, inside, h, inputs)
    decreases s, 1
  {
    hide Runs;
    hide Empty;
    hide SameOutside;
    match s {
      case Then(first, second) =>
        var mid, hi, r := lo + Count(first), lo + Count(s), Runs(first, lo, inside, h, inputs);
        EmptyWithin(h, lo, hi, lo, mid);
        EmptyWithin(h, lo, hi, mid, hi);
        OldIsNeverResumed(first, lo, inside, h, inputs);
        KeepsOthers(first, lo, inside, h, inputs);
        EmptyStays(h, r.h, mid, hi, lo, mid);
        OldIsNeverResumed(second, mid, inside, r.h, r.inputs);
      case Labelled(body) => OldIsNeverResumed(body, lo, Deeper(inside), h, inputs);
      case Loop(_) => LeavesEmpty(s, lo, inside, h, inputs);
      case Try(_, _, _) => OldIsNeverResumedTry(s, lo, inside, h, inputs);
      case _ =>
    }
  }

  lemma {:induction false} OldIsNeverResumedTry(s: Stmt, lo: nat, inside: Option<nat>, h: Hidden, inputs: seq<Resume>)
    requires s.Try? && LoopsCatchFirst(s) && FinallysStay(s) && Empty(h, lo, lo + Count(s))
    ensures NothingOld(s, lo, inside, h, inputs)
    decreases s, 0
  {
    hide Runs;
    hide Empty;
    hide SameOutside;
    hide Finally;
    var inner, mid, end, hi := Inner(s, inside), LoOfHandler(s, lo), LoOfFinalizer(s, lo), lo + Count(s);
    var g, c := Runs(s.guarded, lo + 1, inner, h, inputs), RunsGuarded(s, lo, inside, h, inputs);
    EmptyWithin(h, lo, hi, lo + 1, mid);
    OldIsNeverResumed(s.guarded, lo + 1, inner, h, inputs);
    EmptyAroundGuarded(s, lo, inside, h, inputs);
    if s.handler.Some? {
      EmptyHandlerRange(g, lo, mid, end, hi);
      OldIsNeverResumed(s.handler.value, mid, inner, OnHandler(g, lo), g.inputs);
    }
    if s.finalizer.Some? {
      EmptyWithin(h, lo, hi, lo, lo + 1);
      EmptyOwn(h, lo);
      RecordAfterGuarded(s, lo, inside, h, inputs);
      KeepsOthersGuarded(s, lo, inside, h, inputs);
      EmptyWithin(h, lo, hi, end, hi);
      EmptyStays(h, c.h, end, hi, lo, end);
      EmptyOnFinally(c, lo, end, hi);
      PlainHasNoFinally(s.finalizer.value);
      NoFinallyEmpty(s.finalizer.value, end, inside, OnFinally(c, lo), c.inputs);
    }
  }

  lemma EmptyHandlerRange(g: Result, lo: nat, mid: nat, end: nat, hi: nat)
    requires Empty(g.h, mid, hi) && lo < mid && end <= hi
    ensures Empty(OnHandler(g, lo), mid, end)
  {
    forall i: nat | mid <= i < end ensures OnHandler(g, lo).Record(i) == Normally {
      assert g.h.Record(i) == Normally;
    }
  }

  // ---------------------------------------------------------------------------------------------
  // Whole runs
  // ---------------------------------------------------------------------------------------------

  /** According to the standard the program falls off its end, and on the way a return with another value
      went through a finally block, and was overridden later. */
  predicate ReportsOldReturn(s: Stmt, inputs: seq<Resume>) {
    Standard(s, inputs).ending == Falls && LastReturn(s, inputs, Undefined) != Undefined
  }

  /** According to the standard the program returns the value before it shows anything. */
  predicate ReturnsAtOnce(s: Stmt, v: Value, inputs: seq<Resume>) {
    var o := Standard(s, inputs);
    && o.log == []
    && (o.ending == Returns(v) || (o.ending == Falls && LastReturn(s, inputs, Undefined) == v))
  }

  function Started(inputs: seq<Resume>): seq<Resume> {
    [Resume(NextMode, Undefined)] + inputs
  }

  /** A whole plain program, whatever its loops, does what the standard says in all of its run if and only
      if nothing old is resumed. */
  lemma ProgramAgreesThroughout(s: Stmt, inputs: seq<Resume>)
    requires Plain(s, 0, 0)
    ensures AllAgree(s, 0, None, 0, 0, NothingHidden(), inputs) <==> NothingOld(s, 0, None, NothingHidden(), inputs)
  {
    AgreesThroughout(s, 0, None, 0, 0, NothingHidden(), inputs);
  }

  lemma PlainRunsAgree(s: Stmt, inputs: seq<Resume>)
    requires Plain(s, 0, 0) && NothingOld(s, 0, None, NothingHidden(), inputs)
    ensures Agrees(Run(s, inputs), Standard(s, inputs), None, 0, LastReturn(s, inputs, Undefined))
    ensures RunLog(s, inputs) == StandardLog(s, Started(inputs)) <==> !ReportsOldReturn(s, inputs)
  {
    hide Runs;
    hide Standard;
    hide LastReturn;
    hide NothingOld;
    PlainAgrees(s, 0, None, 0, 0, NothingHidden(), inputs);
    var r, calls := Run(s, inputs), Started(inputs);
    assert calls[1..] == inputs;
    if ReportsOldReturn(s, inputs) {
      assert RunLog(s, inputs)[|r.log|] != StandardLog(s, calls)[|r.log|];
    }
  }

  predicate OfBody(e: Event) {
    e.Emitted? || e.Entered? || e.Yielded?
  }

  /** The body shows effects, caught values and yielded ones; to take a call, it has to yield. */
  lemma {:induction false} BodyShows(s: Stmt, inputs: seq<Resume>)
    ensures var o := Standard(s, inputs);
            && (forall i | 0 <= i < |o.log| :: OfBody(o.log[i]))
            && (o.log == [] ==> o.inputs == inputs && o.ending != Suspended)
    decreases |inputs|, s
  {
    match s {
      case Then(first, second) =>
        hide Standard;
        StandardOfThen(s, inputs);
        BodyShows(first, inputs);
        BodyShows(second, Standard(first, inputs).inputs);
      case Labelled(body) => BodyShows(body, inputs);
      case Loop(body) =>
        hide Standard;
        StandardOfLoop(s, inputs);
        BodyShows(body, inputs);
        if |Standard(body, inputs).inputs| < |inputs| {
          BodyShows(s, Standard(body, inputs).inputs);
        }
      case Try(guarded, handler, finalizer) =>
        hide Standard;
        StandardOfTry(s, inputs);
        StandardOfGuarded(s, inputs);
        BodyShows(guarded, inputs);
        if handler.Some? {
          BodyShows(handler.value, Standard(guarded, inputs).inputs);
        }
        if finalizer.Some? {
          BodyShows(finalizer.value, StandardGuarded(s, inputs).inputs);
        }
      case _ =>
    }
  }

  /** A program shows its return and nothing else if and only if it returns at once. */
  lemma ShowsReturnOnly(s: Stmt, v: Value, inputs: seq<Resume>)
    requires Agrees(Run(s, inputs), Standard(s, inputs), None, 0, LastReturn(s, inputs, Undefined))
    ensures RunLog(s, inputs) == [Done(v)] + AfterEnd(inputs) <==> ReturnsAtOnce(s, v, inputs)
  {
    hide Run;
    hide Standard;
    hide LastReturn;
    hide AfterEnd;
    BodyShows(s, inputs);
    var r, o, log := Run(s, inputs), Standard(s, inputs), RunLog(s, inputs);
    if o.log != [] {
      assert log[0] == o.log[0] && OfBody(o.log[0]);
    } else {
      assert log == Ends(r);
      EndsWith(r, Done(v), AfterEnd(inputs));
    }
  }

  /** What is seen of an end starts with the end itself. */
  lemma EndsWith(r: Result, e: Event, rest: seq<Event>)
    requires rest == AfterEnd(r.inputs)
    ensures Ends(r) == [e] + rest <==>
              match r.comp
              case Throwing(v) => e == Thrown(v)
              case Returning(v) => e == Done(v)
              case Waiting => false
              case Spinning => false
              case _ => e == Done(r.h.rval)
  {
    hide AfterEnd;
    if Ends(r) == [e] + rest {
      assert Ends(r)[0] == e;
    }
  }

  lemma {:induction false} OpenedIsPlain(s: Stmt, v: Value, inside: nat, once: nat)
    requires Plain(s, inside, once)
    ensures Plain(Opened(s, v), inside, once)
  {
    match s {
      case Then(first, _) => OpenedIsPlain(first, v, inside, once);
      case Labelled(body) => OpenedIsPlain(body, v, inside + 1, once + 1);
      case Try(guarded, _, finalizer) =>
        var inner, reach := if finalizer.Some? then 0 else inside, if finalizer.Some? then inside else once;
        assert Plain(Then(Give(v), guarded), inner, reach);
      case _ =>
    }
  }

  lemma {:induction false} OpenedCatchesFirst(s: Stmt, v: Value)
    requires LoopsCatchFirst(s)
    ensures LoopsCatchFirst(Opened(s, v))
  {
    match s {
      case Then(first, _) => OpenedCatchesFirst(first, v);
      case Labelled(body) => OpenedCatchesFirst(body, v);
      case Try(guarded, _, _) => assert LoopsCatchFirst(Then(Give(v), guarded));
      case _ =>
    }
  }

  /** Told to return before it starts, a program that starts in a guarded region shows what the standard
      says of the program with a return at the start of that region. */
  lemma ReturnBeforeStart(s: Stmt, v: Value, inputs: seq<Resume>)
    requires Plain(s, 0, 0) && LoopsCatchFirst(s) && StartsGuarded(s)
    ensures RuntimeLog(s, [Resume(ReturnMode, v)] + inputs) == StandardLog(Opened(s, v), Started(inputs))
            <==> !ReportsOldReturn(Opened(s, v), inputs)
  {
    hide Run;
    hide RunLog;
    hide Standard;
    OpenedIsPlain(s, v, 0, 0);
    OpenedCatchesFirst(s, v);
    NothingOldAtStart(Opened(s, v), inputs);
    PlainRunsAgree(Opened(s, v), inputs);
    assert ([Resume(ReturnMode, v)] + inputs)[1..] == inputs;
  }

  /** What has to be so for a program to show on the runtime what the standard says. Started with `next`,
      it must not report the value of a return that was overridden. Told to return before it starts, it
      is to return at once, as section 25.3.3 says; if its first location is guarded by a finally block,
      that block is run, so nothing must come of it. */
  predicate Faithful(s: Stmt, calls: seq<Resume>) {
    calls == []
    || match calls[0].mode
       case ThrowMode => true
       case NextMode => !ReportsOldReturn(s, calls[1..])
       case ReturnMode => StartsGuarded(s) ==> ReturnsAtOnce(Opened(s, calls[0].arg), calls[0].arg, calls[1..])
  }

  /** Exactly then a plain program shows what the standard says, whatever the calls, as long as nothing is
      caught late in its loops. */
  lemma PlainProgramsAgree(s: Stmt, calls: seq<Resume>)
    requires Plain(s, 0, 0) && LoopsCatchFirst(s)
    ensures RuntimeLog(s, calls) == StandardLog(s, calls) <==> Faithful(s, calls)
  {
    hide Plain;
    hide Run;
    hide RunLog;
    hide Standard;
    hide ReportsOldReturn;
    hide ReturnsAtOnce;
    hide NothingOld;
    if calls != [] {
      var v, rest := calls[0].arg, calls[1..];
      match calls[0].mode {
        case ThrowMode =>
        case NextMode =>
          NothingOldAtStart(s, rest);
          PlainRunsAgree(s, rest);
          assert Started(rest)[1..] == rest;
        case ReturnMode =>
          if StartsGuarded(s) {
            OpenedIsPlain(s, v, 0, 0);
            OpenedCatchesFirst(s, v);
            NothingOldAtStart(Opened(s, v), rest);
            PlainRunsAgree(Opened(s, v), rest);
            ShowsReturnOnly(Opened(s, v), v, rest);
          }
      }
    }
  }

  lemma NothingOldAtStart(s: Stmt, inputs: seq<Resume>)
    requires Plain(s, 0, 0) && LoopsCatchFirst(s)
    ensures NothingOld(s, 0, None, NothingHidden(), inputs)
  {
    PlainStays(s, 0, 0);
    OldIsNeverResumed(s, 0, None, NothingHidden(), inputs);
  }
}
