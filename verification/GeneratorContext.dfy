/** The context object behind a compiled generator: where it is, how it was last resumed, and the
    saved completion of each try statement. */
module GeneratorContext {
  import opened Wrappers

  datatype Value = Undefined | Given(id: int) | RuntimeError(message: string)

  /** A completion record. A `continue` is treated like a `break` throughout. */
  datatype Completion = Normal | Throw(thrown: Value) | Return(returned: Value) | Break(target: nat)

  /** A location in the compiled code, or its "end" label. No number compares with "end". */
  datatype Place = At(loc: nat) | End

  /** How the generator was last resumed: the `method` of the context. */
  datatype Mode = NextMode | ThrowMode | ReturnMode

  /** Locations of one try statement, listed in the order the statements start. `afterLoc` goes with
      `finallyLoc`. */
  datatype TryEntry = TryEntry(tryLoc: nat, catchLoc: Option<nat>, finallyLoc: Option<nat>, afterLoc: nat)

  datatype Ctx = Ctx(
    entries: seq<TryEntry>,
    completions: seq<Completion>,
    root: Completion,
    prev: Place,
    next: Place,
    mode: Mode,
    arg: Value,
    rval: Value,
    done: bool)
  {
    predicate Valid() {
      |completions| == |entries|
    }
  }

  // ---------------------------------------------------------------------------------------------
  // Looking for the entry that handles a completion
  // ---------------------------------------------------------------------------------------------

  /** Where an exception thrown at a place goes, as far as one try statement is concerned. */
  datatype Zone = Outside | ToCatch | ToFinally | Malformed

  function ZoneOf(e: TryEntry, prev: Place): Zone {
    if prev.End? || prev.loc < e.tryLoc then Outside
    else if e.catchLoc.None? && e.finallyLoc.None? then Malformed
    else if e.catchLoc.Some? && prev.loc < e.catchLoc.value then ToCatch
    else if e.finallyLoc.Some? && prev.loc < e.finallyLoc.value then ToFinally
    else Outside
  }

  /** A jump out of this place has to pass the finally block of `e`. */
  predicate Guards(e: TryEntry, prev: Place) {
    && prev.At?
    && e.tryLoc <= prev.loc
    && e.finallyLoc.Some?
    && prev.loc < e.finallyLoc.value
  }

  function Handling(prev: Place): TryEntry -> bool {
    (e: TryEntry) => ZoneOf(e, prev) != Outside
  }

  function Guarding(prev: Place): TryEntry -> bool {
    (e: TryEntry) => Guards(e, prev)
  }

  function FinallyAt(loc: nat): TryEntry -> bool {
    (e: TryEntry) => e.finallyLoc == Some(loc)
  }

  function TryAt(loc: nat): TryEntry -> bool {
    (e: TryEntry) => e.tryLoc == loc
  }

  /** The index of the last entry satisfying `p`, or -1. For entries in start order that enclose a
      place, the last is the innermost. */
  function Last(entries: seq<TryEntry>, p: TryEntry -> bool): (i: int)
    ensures -1 <= i < |entries|
    ensures i >= 0 ==> p(entries[i])
    ensures forall j | i < j < |entries| :: !p(entries[j])
  {
    if entries == [] then -1
    else if p(entries[|entries| - 1]) then |entries| - 1
    else Last(entries[..|entries| - 1], p)
  }

  /** The entry satisfies `p`, and none after it does. */
  predicate Innermost(entries: seq<TryEntry>, p: TryEntry -> bool, i: nat) {
    i < |entries| && p(entries[i]) && forall j | i < j < |entries| :: !p(entries[j])
  }

  function Handler(c: Ctx): int {
    Last(c.entries, Handling(c.prev))
  }

  function Guard(c: Ctx): int {
    Last(c.entries, Guarding(c.prev))
  }

  function EntryWithFinally(c: Ctx, finallyLoc: nat): int {
    Last(c.entries, FinallyAt(finallyLoc))
  }

  function EntryWithTry(c: Ctx, tryLoc: nat): int {
    Last(c.entries, TryAt(tryLoc))
  }

  lemma LastIs(entries: seq<TryEntry>, p: TryEntry -> bool, i: int)
    requires -1 <= i < |entries|
    requires i >= 0 ==> p(entries[i])
    requires forall j | i < j < |entries| :: !p(entries[j])
    ensures Last(entries, p) == i
  {
  }

  // ---------------------------------------------------------------------------------------------
  // What the operations do
  // ---------------------------------------------------------------------------------------------

  /** `None` if the exception found a handler, else what is thrown on to the caller. */
  function Dispatched(c: Ctx, exception: Value): (r: (Ctx, Option<Value>))
    requires c.Valid()
    ensures r.0.Valid() && r.0.entries == c.entries
  {
    if c.done then (c, Some(exception))
    else
      var i := Handler(c);
      if i < 0 then (c.(root := Throw(exception), next := End), None)
      else
        match ZoneOf(c.entries[i], c.prev)
        case ToCatch =>
          (c.(completions := c.completions[i := Throw(exception)],
              next := At(c.entries[i].catchLoc.value), mode := NextMode, arg := Undefined), None)
        case ToFinally =>
          (c.(completions := c.completions[i := Throw(exception)],
              next := At(c.entries[i].finallyLoc.value)), None)
        case _ => (c, Some(RuntimeError("try statement without catch or finally")))
  }

  /** A completion that no finally block stands in the way of any more. */
  function Completed(c: Ctx, record: Completion, afterLoc: Option<nat>): (r: (Ctx, Option<Value>))
    ensures r.0.completions == c.completions && r.0.entries == c.entries
  {
    match record
    case Throw(v) => (c, Some(v))
    case Break(target) => (c.(next := At(target)), None)
    case Return(v) => (c.(rval := v, arg := v, mode := ReturnMode, next := End), None)
    case Normal => (if afterLoc.Some? then c.(next := At(afterLoc.value)) else c, None)
  }

  /** The entry whose finally block an abrupt completion has to run first, or -1. A jump that stays
      within the innermost guarded region passes no finally block. */
  function Detour(c: Ctx, record: Completion): int {
    var i := Guard(c);
    if i >= 0 && record.Break?
       && c.entries[i].tryLoc <= record.target <= c.entries[i].finallyLoc.value
    then -1 else i
  }

  function Aborted(c: Ctx, record: Completion): (r: (Ctx, Option<Value>))
    requires c.Valid()
    ensures r.0.Valid() && r.0.entries == c.entries
  {
    var i := Detour(c, record);
    if i >= 0 then
      (c.(completions := c.completions[i := record], mode := NextMode,
          next := At(c.entries[i].finallyLoc.value)), None)
    else Completed(c, record, None)
  }

  /** The end of a finally block resumes the saved completion. A rethrow leaves the record as it is. */
  function Finished(c: Ctx, finallyLoc: nat): (r: (Ctx, Option<Value>))
    requires c.Valid()
    ensures r.0.Valid() && r.0.entries == c.entries
  {
    var i := EntryWithFinally(c, finallyLoc);
    if i < 0 then (c, None)
    else
      var (c', thrown) := Completed(c, c.completions[i], Some(c.entries[i].afterLoc));
      if thrown.Some? then (c', thrown)
      else (c'.(completions := c'.completions[i := Normal]), None)
  }

  /** The value a catch block is entered with, or the error of asking for an unknown one. */
  function Caught(c: Ctx, tryLoc: nat): (r: (Ctx, Value, Option<Value>))
    requires c.Valid()
    ensures r.0.Valid() && r.0.entries == c.entries
  {
    var i := EntryWithTry(c, tryLoc);
    if i < 0 then (c, Undefined, Some(RuntimeError("illegal catch attempt")))
    else if c.completions[i].Throw? then
      (c.(completions := c.completions[i := Normal]), c.completions[i].thrown, None)
    else (c, Undefined, None)
  }

  function Stopped(c: Ctx): (Ctx, Value, Option<Value>) {
    if c.root.Throw? then (c.(done := true), Undefined, Some(c.root.thrown))
    else (c.(done := true), c.rval, None)
  }

  function Initial(entries: seq<TryEntry>): Ctx {
    Ctx(entries, seq(|entries|, i => Normal), Normal, At(0), At(0), NextMode, Undefined, Undefined, false)
  }

  // ---------------------------------------------------------------------------------------------
  // The innermost entry decides
  // ---------------------------------------------------------------------------------------------

  ghost predicate NoneOf(entries: seq<TryEntry>, p: TryEntry -> bool) {
    forall j | 0 <= j < |entries| :: !p(entries[j])
  }

  /** Where an exception is caught or held up, in terms of locations alone. */
  lemma ZoneIs(e: TryEntry, loc: nat)
    ensures ZoneOf(e, At(loc)) == ToCatch <==> e.catchLoc.Some? && e.tryLoc <= loc < e.catchLoc.value
    ensures ZoneOf(e, At(loc)) == ToFinally
            <==> && e.finallyLoc.Some? && e.tryLoc <= loc < e.finallyLoc.value
                 && !(e.catchLoc.Some? && loc < e.catchLoc.value)
    ensures ZoneOf(e, At(loc)) == Malformed <==> e.tryLoc <= loc && e.catchLoc.None? && e.finallyLoc.None?
    ensures ZoneOf(e, End) == Outside
  {
  }

  /** An exception goes to the innermost entry that handles the place it comes from, and ends the generator
      if there is none. */
  lemma DispatchedTo(c: Ctx, exception: Value, i: nat)
    requires c.Valid()
    ensures c.done ==> Dispatched(c, exception) == (c, Some(exception))
    ensures !c.done && NoneOf(c.entries, Handling(c.prev)) ==>
              Dispatched(c, exception) == (c.(root := Throw(exception), next := End), None)
    ensures !c.done && Innermost(c.entries, Handling(c.prev), i) ==>
              var e, saved := c.entries[i], c.(completions := c.completions[i := Throw(exception)]);
              Dispatched(c, exception)
              == match ZoneOf(e, c.prev)
                 case ToCatch => (saved.(next := At(e.catchLoc.value), mode := NextMode, arg := Undefined), None)
                 case ToFinally => (saved.(next := At(e.finallyLoc.value)), None)
                 case _ => (c, Some(RuntimeError("try statement without catch or finally")))
  {
    if NoneOf(c.entries, Handling(c.prev)) {
      LastIs(c.entries, Handling(c.prev), -1);
    }
    if Innermost(c.entries, Handling(c.prev), i) {
      LastIs(c.entries, Handling(c.prev), i);
    }
  }

  /** A record without a finally block on its way takes effect at once. */
  lemma CompletedAs(c: Ctx, record: Completion, afterLoc: Option<nat>)
    ensures Completed(c, record, afterLoc).1 == if record.Throw? then Some(record.thrown) else None
    ensures Completed(c, record, afterLoc).0
            == if record.Break? then c.(next := At(record.target))
               else if record.Return? then
                 c.(next := End, mode := ReturnMode, arg := record.returned, rval := record.returned)
               else if record.Normal? && afterLoc.Some? then c.(next := At(afterLoc.value))
               else c
  {
  }

  /** A completion is held up by the innermost entry whose finally block guards the place, but for a jump
      that stays within that entry. */
  lemma AbortedAt(c: Ctx, record: Completion, i: nat)
    requires c.Valid()
    ensures NoneOf(c.entries, Guarding(c.prev)) ==> Aborted(c, record) == Completed(c, record, None)
    ensures Innermost(c.entries, Guarding(c.prev), i) ==>
              && c.prev.At? && c.entries[i].finallyLoc.Some?
              && var e := c.entries[i];
                 && e.tryLoc <= c.prev.loc < e.finallyLoc.value
                 && Aborted(c, record)
                    == if record.Break? && e.tryLoc <= record.target <= e.finallyLoc.value then
                         (c.(next := At(record.target)), None)
                       else
                         (c.(completions := c.completions[i := record], mode := NextMode,
                             next := At(e.finallyLoc.value)), None)
  {
    if NoneOf(c.entries, Guarding(c.prev)) {
      LastIs(c.entries, Guarding(c.prev), -1);
    }
    if Innermost(c.entries, Guarding(c.prev), i) {
      LastIs(c.entries, Guarding(c.prev), i);
    }
  }

  /** The end of a finally block resumes what its entry has saved, and forgets it unless it throws it. */
  lemma FinishedAt(c: Ctx, finallyLoc: nat, i: nat)
    requires c.Valid()
    ensures NoneOf(c.entries, FinallyAt(finallyLoc)) ==> Finished(c, finallyLoc) == (c, None)
    ensures Innermost(c.entries, FinallyAt(finallyLoc), i) ==>
              var record := c.completions[i];
              Finished(c, finallyLoc)
              == if record.Throw? then (c, Some(record.thrown))
                 else
                   var after := Completed(c, record, Some(c.entries[i].afterLoc)).0;
                   (after.(completions := c.completions[i := Normal]), None)
  {
    if NoneOf(c.entries, FinallyAt(finallyLoc)) {
      LastIs(c.entries, FinallyAt(finallyLoc), -1);
    }
    if Innermost(c.entries, FinallyAt(finallyLoc), i) {
      LastIs(c.entries, FinallyAt(finallyLoc), i);
    }
  }

  /** A catch block gets what its entry has saved, once. */
  lemma CaughtAt(c: Ctx, tryLoc: nat, i: nat)
    requires c.Valid()
    ensures NoneOf(c.entries, TryAt(tryLoc)) ==>
              Caught(c, tryLoc) == (c, Undefined, Some(RuntimeError("illegal catch attempt")))
    ensures Innermost(c.entries, TryAt(tryLoc), i) ==>
              Caught(c, tryLoc)
              == if c.completions[i].Throw? then
                   (c.(completions := c.completions[i := Normal]), c.completions[i].thrown, None)
                 else (c, Undefined, None)
  {
    if NoneOf(c.entries, TryAt(tryLoc)) {
      LastIs(c.entries, TryAt(tryLoc), -1);
    }
    if Innermost(c.entries, TryAt(tryLoc), i) {
      LastIs(c.entries, TryAt(tryLoc), i);
    }
  }

  // ---------------------------------------------------------------------------------------------
  // The operations
  // ---------------------------------------------------------------------------------------------

  /** Each method reports what it throws, if anything, as a `Some`. */
  class Context {
    const entries: seq<TryEntry>
    var completions: seq<Completion>
    var root: Completion
    var prev: Place
    var next: Place
    var mode: Mode
    var arg: Value
    var rval: Value
    var done: bool

    ghost function Now(): Ctx
      reads this
    {
      Ctx(entries, completions, root, prev, next, mode, arg, rval, done)
    }

    constructor (tryLocs: seq<TryEntry>)
      ensures Now() == Initial(tryLocs) && Now().Valid()
    {
      entries := tryLocs;
      completions := seq(|tryLocs|, i => Normal);
      root, prev, next := Normal, At(0), At(0);
      mode, arg, rval, done := NextMode, Undefined, Undefined, false;
    }

    method Stop() returns (value: Value, thrown: Option<Value>)
      modifies this
      ensures (Now(), value, thrown) == Stopped(old(Now()))
    {
      done := true;
      if root.Throw? {
        return Undefined, Some(root.thrown);
      }
      return rval, None;
    }

    method Complete(record: Completion, afterLoc: Option<nat>) returns (thrown: Option<Value>)
      modifies this
      ensures (Now(), thrown) == Completed(old(Now()), record, afterLoc)
    {
      if record.Throw? {
        return Some(record.thrown);
      }
      if record.Break? {
        next := At(record.target);
      } else if record.Return? {
        arg := record.returned;
        rval := record.returned;
        mode := ReturnMode;
        next := End;
      } else if record.Normal? && afterLoc.Some? {
        next := At(afterLoc.value);
      }
      return None;
    }

    method DispatchException(exception: Value) returns (thrown: Option<Value>)
      requires Now().Valid()
      modifies this
      ensures Now().Valid() && (Now(), thrown) == Dispatched(old(Now()), exception)
    {
      if done {
        return Some(exception);
      }
      var i := |entries|;
      while i > 0
        invariant 0 <= i <= |entries|
        invariant Now() == old(Now())
        invariant forall j | i <= j < |entries| :: ZoneOf(entries[j], prev) == Outside
      {
        i := i - 1;
        var entry := entries[i];
        if prev.At? && entry.tryLoc <= prev.loc {
          if ZoneOf(entry, prev) != Outside {
            LastIs(entries, Handling(old(prev)), i);
          }
          if entry.catchLoc.Some? && entry.finallyLoc.Some? {
            if prev.loc < entry.catchLoc.value {
              Handle(i, exception, entry.catchLoc.value, true);
              return None;
            } else if prev.loc < entry.finallyLoc.value {
              Handle(i, exception, entry.finallyLoc.value, false);
              return None;
            }
          } else if entry.catchLoc.Some? {
            if prev.loc < entry.catchLoc.value {
              Handle(i, exception, entry.catchLoc.value, true);
              return None;
            }
          } else if entry.finallyLoc.Some? {
            if prev.loc < entry.finallyLoc.value {
              Handle(i, exception, entry.finallyLoc.value, false);
              return None;
            }
          } else {
            return Some(RuntimeError("try statement without catch or finally"));
          }
        }
      }
      LastIs(entries, Handling(old(prev)), -1);
      root := Throw(exception);
      next := End;
      return None;
    }

    method Handle(i: nat, exception: Value, loc: nat, caught: bool)
      requires Now().Valid() && i < |entries|
      modifies this
      ensures Now() == var c := old(Now()).(completions := old(completions)[i := Throw(exception)], next := At(loc));
                       if caught then c.(mode := NextMode, arg := Undefined) else c
    {
      completions := completions[i := Throw(exception)];
      next := At(loc);
      if caught {
        mode := NextMode;
        arg := Undefined;
      }
    }

    method Abrupt(record: Completion) returns (thrown: Option<Value>)
      requires Now().Valid()
      modifies this
      ensures Now().Valid() && (Now(), thrown) == Aborted(old(Now()), record)
    {
      var finallyEntry: int := -1;
      var i := |entries|;
      while i > 0
        invariant 0 <= i <= |entries|
        invariant forall j | i <= j < |entries| :: !Guards(entries[j], prev)
      {
        i := i - 1;
        if Guards(entries[i], prev) {
          finallyEntry := i;
          break;
        }
      }
      LastIs(entries, Guarding(old(prev)), finallyEntry);
      if finallyEntry >= 0 && record.Break?
         && entries[finallyEntry].tryLoc <= record.target <= entries[finallyEntry].finallyLoc.value {
        finallyEntry := -1;
      }
      if finallyEntry >= 0 {
        completions := completions[finallyEntry := record];
        mode := NextMode;
        next := At(entries[finallyEntry].finallyLoc.value);
        return None;
      }
      thrown := Complete(record, None);
    }

    method Finish(finallyLoc: nat) returns (thrown: Option<Value>)
      requires Now().Valid()
      modifies this
      ensures Now().Valid() && (Now(), thrown) == Finished(old(Now()), finallyLoc)
    {
      var i := |entries|;
      while i > 0
        invariant 0 <= i <= |entries|
        invariant forall j | i <= j < |entries| :: entries[j].finallyLoc != Some(finallyLoc)
      {
        i := i - 1;
        if entries[i].finallyLoc == Some(finallyLoc) {
          LastIs(entries, FinallyAt(finallyLoc), i);
          thrown := Complete(completions[i], Some(entries[i].afterLoc));
          if thrown.None? {
            completions := completions[i := Normal];
          }
          return;
        }
      }
      LastIs(entries, FinallyAt(finallyLoc), -1);
      thrown := None;
    }

    method Catch(tryLoc: nat) returns (value: Value, thrown: Option<Value>)
      requires Now().Valid()
      modifies this
      ensures Now().Valid() && (Now(), value, thrown) == Caught(old(Now()), tryLoc)
    {
      var i := |entries|;
      while i > 0
        invariant 0 <= i <= |entries|
        invariant forall j | i <= j < |entries| :: entries[j].tryLoc != tryLoc
      {
        i := i - 1;
        if entries[i].tryLoc == tryLoc {
          LastIs(entries, TryAt(tryLoc), i);
          value := Undefined;
          if completions[i].Throw? {
            value := completions[i].thrown;
            completions := completions[i := Normal];
          }
          return value, None;
        }
      }
      LastIs(entries, TryAt(tryLoc), -1);
      return Undefined, Some(RuntimeError("illegal catch attempt"));
    }
  }
}
