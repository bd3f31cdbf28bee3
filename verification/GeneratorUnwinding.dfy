/** Leaving nested try-finally statements. */
module GeneratorUnwinding {
  import opened GeneratorAgreement
  import opened GeneratorContext
  import opened GeneratorPrograms
  import opened GeneratorRecords
  import opened GeneratorReentry
  import opened Wrappers

  /** `body` inside nested try-finally statements, the innermost first. */
  function Nest(body: Stmt, blocks: seq<Stmt>): Stmt {
    if blocks == [] then body
    else Try(Nest(body, blocks[..|blocks| - 1]), None, Some(blocks[|blocks| - 1]))
  }

  predicate PlainBlocks(blocks: seq<Stmt>) {
    forall i | 0 <= i < |blocks| :: PlainFinalizer(blocks[i])
  }

  /** The blocks one after the other, for as long as they end normally. */
  function InTurn(blocks: seq<Stmt>, inputs: seq<Resume>): (o: Outcome)
    ensures |o.inputs| <= |inputs|
  {
    if blocks == [] then Outcome([], Falls, inputs)
    else
      var o := InTurn(blocks[..|blocks| - 1], inputs);
      if o.ending == Falls then Standard(blocks[|blocks| - 1], o.inputs).After(o.log) else o
  }

  /** In the innermost of the regions. */
  function Innermost(blocks: seq<Stmt>, inside: Option<nat>): Option<nat> {
    if blocks == [] then inside else Some(0)
  }

  lemma NestRuns(body: Stmt, blocks: seq<Stmt>, lo: nat, inside: Option<nat>, h: Hidden, inputs: seq<Resume>)
    requires blocks != []
    ensures var front, s := blocks[..|blocks| - 1], Nest(body, blocks);
            && s.Try? && s.guarded == Nest(body, front) && s.finalizer == Some(blocks[|blocks| - 1])
            && RunsGuarded(s, lo, inside, h, inputs) == Runs(Nest(body, front), lo + 1, Some(0), h, inputs)
  {
  }

  /** An exception or a return runs every finally block around it exactly once, innermost first, and
      comes out as it was, if the blocks end normally. */
  lemma {:induction false} UnwindsOutward(body: Stmt, blocks: seq<Stmt>, lo: nat, inside: Option<nat>, h: Hidden,
                                          inputs: seq<Resume>)
    requires PlainBlocks(blocks)
    requires var r := Runs(body, lo + |blocks|, Innermost(blocks, inside), h, inputs);
             (r.comp.Throwing? || r.comp.Returning?) && InTurn(blocks, r.inputs).ending == Falls
    ensures var r, n := Runs(body, lo + |blocks|, Innermost(blocks, inside), h, inputs),
                        Runs(Nest(body, blocks), lo, inside, h, inputs);
            var o := InTurn(blocks, r.inputs);
            n.log == r.log + o.log && n.comp == r.comp && n.inputs == o.inputs
    decreases |blocks|
  {
    hide Runs;
    hide RunsGuarded;
    hide Standard;
    hide PlainFinalizer;
    hide Settles;
    if blocks != [] {
      var front, last, s := blocks[..|blocks| - 1], blocks[|blocks| - 1], Nest(body, blocks);
      var r := Runs(body, lo + |blocks|, Some(0), h, inputs);
      assert |front| + 1 == |blocks|;
      assert lo + 1 + |front| == lo + |blocks| && Innermost(front, Some(0)) == Some(0);
      UnwindsOutward(body, front, lo + 1, Some(0), h, inputs);
      NestRuns(body, blocks, lo, inside, h, inputs);
      var c := RunsGuarded(s, lo, inside, h, inputs);
      var o := InTurn(front, r.inputs);
      PlainFinalizerAgrees(last, LoOfFinalizer(s, lo), inside, OnFinally(c, lo), c.inputs);
      RunsOfFinally(s, lo, inside, h, inputs);
      RecordAtEnd(s, lo, inside, h, inputs);
      assert r.log + o.log + Standard(last, o.inputs).log == r.log + (o.log + Standard(last, o.inputs).log);
    }
  }

  /** An exception gets to the catch block around those finally blocks with the value it had. */
  lemma ReachesCatch(body: Stmt, blocks: seq<Stmt>, handler: Stmt, lo: nat, inside: Option<nat>, h: Hidden,
                     inputs: seq<Resume>)
    requires PlainBlocks(blocks)
    requires var r := Runs(body, lo + 1 + |blocks|, Innermost(blocks, inside), h, inputs);
             r.comp.Throwing? && InTurn(blocks, r.inputs).ending == Falls
    ensures var r := Runs(body, lo + 1 + |blocks|, Innermost(blocks, inside), h, inputs);
            var before := r.log + InTurn(blocks, r.inputs).log + [Entered(r.comp.thrown)];
            before <= Runs(Try(Nest(body, blocks), Some(handler), None), lo, inside, h, inputs).log
  {
    hide Runs;
    hide RunsGuarded;
    UnwindsOutward(body, blocks, lo + 1, inside, h, inputs);
    var s := Try(Nest(body, blocks), Some(handler), None);
    RunsOfTry(s, lo, inside, h, inputs);
    RunsOfGuarded(s, lo, inside, h, inputs);
  }

  /** A jump out of nested try-finally statements runs the innermost finally block and no other. */
  lemma {:induction false} JumpRunsInnermostOnly(body: Stmt, blocks: seq<Stmt>, lo: nat, inside: Option<nat>, h: Hidden,
                                                 inputs: seq<Resume>)
    requires PlainBlocks(blocks) && blocks != []
    requires var r := Runs(body, lo + |blocks|, Some(0), h, inputs);
             r.comp.Jumping? && !r.comp.direct && Standard(blocks[0], r.inputs).ending == Falls
    ensures var r, n := Runs(body, lo + |blocks|, Some(0), h, inputs), Runs(Nest(body, blocks), lo, inside, h, inputs);
            var o := Standard(blocks[0], r.inputs);
            && n.log == r.log + o.log && n.comp == Jumping(r.comp.k, true) && n.inputs == o.inputs
            && n.h.pending.None? && n.h.rval == r.h.rval
    decreases |blocks|
  {
    hide Runs;
    hide RunsGuarded;
    hide Standard;
    hide PlainFinalizer;
    hide Settles;
    var front, s := blocks[..|blocks| - 1], Nest(body, blocks);
    var r := Runs(body, lo + |blocks|, Some(0), h, inputs);
    NestRuns(body, blocks, lo, inside, h, inputs);
    RunsOfFinally(s, lo, inside, h, inputs);
    if front == [] {
      var c := RunsGuarded(s, lo, inside, h, inputs);
      assert c == r;
      PlainFinalizerAgrees(blocks[0], LoOfFinalizer(s, lo), inside, OnFinally(c, lo), c.inputs);
      RecordAtEnd(s, lo, inside, h, inputs);
    } else {
      assert front[0] == blocks[0] && lo + 1 + |front| == lo + |blocks|;
      JumpRunsInnermostOnly(body, front, lo + 1, Some(0), h, inputs);
    }
  }

  lemma {:induction false} InTurnSplit(blocks: seq<Stmt>, inputs: seq<Resume>)
    requires blocks != [] && InTurn(blocks, inputs).ending == Falls
    ensures var o := Standard(blocks[0], inputs);
            && o.ending == Falls && InTurn(blocks[1..], o.inputs).ending == Falls
            && InTurn(blocks, inputs) == InTurn(blocks[1..], o.inputs).After(o.log)
    decreases |blocks|
  {
    hide Standard;
    var n := |blocks| - 1;
    if n == 0 {
      assert InTurn(blocks[..0], inputs) == Outcome([], Falls, inputs);
    } else {
      var o := Standard(blocks[0], inputs);
      InTurnSplit(blocks[..n], inputs);
      assert blocks[..n][1..] == blocks[1..][..n - 1] && blocks[..n][0] == blocks[0];
      var p := InTurn(blocks[1..][..n - 1], o.inputs);
      var q := Standard(blocks[n], p.inputs);
      assert o.log + (p.log + q.log) == o.log + p.log + q.log;
    }
  }

  lemma {:induction false} StandardJumps(blocks: seq<Stmt>, inputs: seq<Resume>)
    requires InTurn(blocks, inputs).ending == Falls
    ensures Standard(Nest(Jump(0), blocks), inputs) == InTurn(blocks, inputs).(ending := Jumps(0))
    decreases |blocks|
  {
    if blocks != [] {
      var s := Nest(Jump(0), blocks);
      StandardJumps(blocks[..|blocks| - 1], inputs);
      hide Standard;
      StandardOfTry(s, inputs);
      StandardOfGuarded(s, inputs);
    }
  }

  lemma {:induction false} InTurnShows(blocks: seq<Stmt>, inputs: seq<Resume>)
    ensures var o := InTurn(blocks, inputs);
            && (forall i | 0 <= i < |o.log| :: OfBody(o.log[i]))
            && (o.log == [] ==> o.inputs == inputs)
    decreases |blocks|
  {
    hide Standard;
    if blocks != [] {
      var o := InTurn(blocks[..|blocks| - 1], inputs);
      InTurnShows(blocks[..|blocks| - 1], inputs);
      BodyShows(blocks[|blocks| - 1], o.inputs);
    }
  }

  lemma NestedStandardLog(blocks: seq<Stmt>, inputs: seq<Resume>)
    requires InTurn(blocks, inputs).ending == Falls
    ensures var s, o := Labelled(Nest(Jump(0), blocks)), InTurn(blocks, inputs);
            StandardLog(s, Started(inputs)) == o.log + ([Done(Undefined)] + AfterEnd(o.inputs))
  {
    hide Standard;
    hide Nest;
    hide InTurn;
    StandardJumps(blocks, inputs);
    LabelledStandard(Labelled(Nest(Jump(0), blocks)), inputs);
    assert Started(inputs)[1..] == inputs;
  }

  lemma NestedRunLog(blocks: seq<Stmt>, inputs: seq<Resume>)
    requires PlainBlocks(blocks) && blocks != [] && Standard(blocks[0], inputs).ending == Falls
    ensures var s, o := Labelled(Nest(Jump(0), blocks)), Standard(blocks[0], inputs);
            RunLog(s, inputs) == o.log + ([Done(Undefined)] + AfterEnd(o.inputs))
  {
    hide Runs;
    hide Standard;
    hide Nest;
    var s, h := Labelled(Nest(Jump(0), blocks)), NothingHidden();
    RunsOfLabelled(s, 0, None, h, inputs);
    JumpStops(|blocks|, h, inputs);
    JumpRunsInnermostOnly(Jump(0), blocks, 0, Deeper(None), h, inputs);
  }

  lemma JumpRunLog(inputs: seq<Resume>)
    ensures RunLog(Labelled(Jump(0)), inputs) == [Done(Undefined)] + AfterEnd(inputs)
  {
    hide Runs;
    var h := NothingHidden();
    RunsOfLabelled(Labelled(Jump(0)), 0, None, h, inputs);
    JumpAlone(0, h, inputs);
  }

  /** A jump out of nested try-finally statements shows what the standard says, if and only if the blocks
      that are passed over would have shown nothing. */
  lemma NestedJumpAgrees(blocks: seq<Stmt>, inputs: seq<Resume>)
    requires PlainBlocks(blocks) && InTurn(blocks, inputs).ending == Falls
    ensures var s := Labelled(Nest(Jump(0), blocks));
            RunLog(s, inputs) == StandardLog(s, Started(inputs))
            <==> |blocks| <= 1 || InTurn(blocks[1..], Standard(blocks[0], inputs).inputs).log == []
  {
    hide Standard;
    hide StandardLog;
    hide RunLog;
    hide PlainBlocks;
    NestedStandardLog(blocks, inputs);
    if blocks == [] {
      JumpRunLog(inputs);
    } else {
      InTurnSplit(blocks, inputs);
      hide Nest;
      NestedRunLog(blocks, inputs);
      var first := Standard(blocks[0], inputs);
      var rest := InTurn(blocks[1..], first.inputs);
      InTurnShows(blocks[1..], first.inputs);
      TailsDiffer(first.log, rest.log, AfterEnd(first.inputs), AfterEnd(rest.inputs));
      assert |blocks| == 1 ==> blocks[1..] == [];
    }
  }

  lemma LabelledStandard(s: Stmt, inputs: seq<Resume>)
    requires s.Labelled?
    ensures Standard(s, inputs) == Standard(s.body, inputs).AtLabel()
  {
  }

  lemma JumpAlone(lo: nat, h: Hidden, inputs: seq<Resume>)
    requires h.pending.None?
    ensures Runs(Jump(0), lo, None, h, inputs) == Result([], Jumping(0, true), h, inputs)
  {
  }

  lemma JumpStops(lo: nat, h: Hidden, inputs: seq<Resume>)
    ensures Runs(Jump(0), lo, Some(0), h, inputs) == Result([], Jumping(0, false), h, inputs)
  {
  }

  lemma TailsDiffer(a: seq<Event>, b: seq<Event>, c: seq<Event>, d: seq<Event>)
    requires forall i | 0 <= i < |b| :: OfBody(b[i])
    requires b == [] ==> c == d
    ensures a + ([Done(Undefined)] + c) == a + b + ([Done(Undefined)] + d) <==> b == []
  {
    if b == [] {
      assert a + b == a;
    } else {
      assert (a + ([Done(Undefined)] + c))[|a|] == Done(Undefined);
      assert (a + b + ([Done(Undefined)] + d))[|a|] == b[0];
    }
  }

  function Effects(ids: seq<int>): seq<Stmt> {
    seq(|ids|, i requires 0 <= i < |ids| => Emit(ids[i]))
  }

  lemma {:induction false} EffectsInTurn(ids: seq<int>, inputs: seq<Resume>)
    ensures PlainBlocks(Effects(ids))
    ensures var o := InTurn(Effects(ids), inputs); o.ending == Falls && |o.log| == |ids| && o.inputs == inputs
    decreases |ids|
  {
    if ids != [] {
      EffectsInTurn(ids[..|ids| - 1], inputs);
      assert Effects(ids)[..|ids| - 1] == Effects(ids[..|ids| - 1]);
    }
  }

  /** With blocks that each have an effect, that is if and only if there is at most one. */
  lemma NestedEffectsAgree(ids: seq<int>, inputs: seq<Resume>)
    ensures var s := Labelled(Nest(Jump(0), Effects(ids)));
            RunLog(s, inputs) == StandardLog(s, Started(inputs)) <==> |ids| <= 1
  {
    EffectsInTurn(ids, inputs);
    NestedJumpAgrees(Effects(ids), inputs);
    if ids != [] {
      assert Effects(ids)[1..] == Effects(ids[1..]);
      EffectsInTurn(ids[1..], inputs);
    }
  }

  lemma InTurnOfTwo(first: int, second: int)
    ensures InTurn([Emit(first), Emit(second)], []) == Outcome([Emitted(first), Emitted(second)], Falls, [])
  {
    var blocks := [Emit(first), Emit(second)];
    assert blocks[..1] == [Emit(first)] && [Emit(first)][..0] == [];
    assert InTurn([Emit(first)], []) == Outcome([Emitted(first)], Falls, []);
  }

  lemma NestOfTwo(body: Stmt, first: Stmt, second: Stmt)
    ensures Nest(body, [first, second]) == Try(Try(body, None, Some(first)), None, Some(second))
  {
    assert [first, second][..1] == [first] && [first][..0] == [];
    assert Nest(body, [first]) == Try(body, None, Some(first));
  }

  /** A jump out of two regions skips the outer finally block. */
  lemma NestedJumpSkipsOuterFinally()
    ensures var s := Labelled(Try(Try(Jump(0), None, Some(Emit(1))), None, Some(Emit(2))));
            && StandardLog(s, Started([])) == [Emitted(1), Emitted(2), Done(Undefined)]
            && RuntimeLog(s, Started([])) == [Emitted(1), Done(Undefined)]
  {
    hide InTurn;
    hide Nest;
    hide RunLog;
    hide StandardLog;
    var blocks := [Emit(1), Emit(2)];
    NestOfTwo(Jump(0), Emit(1), Emit(2));
    InTurnOfTwo(1, 2);
    NestedStandardLog(blocks, []);
    NestedRunLog(blocks, []);
  }
}
