# Data Workspace: a verified model of its algorithms and protocols

Data Workspace is a platform of a Django application, an aiohttp proxy and some browser code. This
project models the parts of it that are algorithms or protocols in their own right, and proves what
they are meant to guarantee. Where the code does not guarantee it, the model keeps the code as it is,
a lemma gives an input that shows it, and another says exactly when the guarantee holds.

Run `dafny verify dfyconfig.toml` to check everything.

## The modules

**Tables of a query** (`SqlTables`, `SqlTableTrails`, `SqlTableLaws`, `SqlTableRenaming`). A breadth-first walk over a
parsed PostgreSQL statement carries the names of the common table expressions in scope (section 7.8 of
the PostgreSQL manual). The walk is proved to compute a recursive definition of free tables, the
definition is proved to agree with one that works bottom-up and with one in terms of trails through the tree, and renaming common table expressions, at any
depth, is proved to be invisible. The walk does not enter tuples inside tuples; what it misses is characterised exactly.

**Generators** (`GeneratorContext`, `GeneratorPrograms`, `GeneratorMachine`, `GeneratorSites`,
`GeneratorRecords`, `GeneratorSimulation`, `GeneratorRuns`, `GeneratorObject`, `GeneratorReentry`,
`GeneratorAgreement`, `GeneratorUnwinding`, `GeneratorDepartures`, `GeneratorLoops`, `GeneratorDelegate`).
The runtime behind compiled generators and `async` functions keeps a list of try entries with saved
completions. `GeneratorContext` is the context object, method by method. `GeneratorMachine` compiles
structured programs with `try`, `catch`, `finally`, loops, labels, jumps, `yield` and `return` to numbered
locations and try entries, in the shape of the compiled code in the repository, and drives them like the
`invoke` loop. The main theorem, `CompiledRuns`, says that every compiled program, called in any way
with `next`, `throw` and `return`, shows what a structured semantics says, unless a loop goes round
without waiting for a call. `GeneratorObject` is the driving loop itself, proved against the machine. A
comment in the source says that an exception leaves the generator executing; the code sets it to
completed, and so does the model.

That semantics is not quite the standard's (section 13.15 of ECMA-262, 6th edition; section 25.3.3 for
resumption). `PlainProgramsAgree` says for a class of programs, and all calls, exactly when the two agree,
and `ProgramAgreesThroughout` allows any loops, and says so of every statement of a run;
outside that class, `NestedJumpAgrees`, `JumpInFinally` and `TryInFinally` say so of the statements that
depart from the standard. Try entries are not cleared when a finally block throws an exception on, nor when
it overrides a completion, and they are not cleared on entry either: a loop that comes back to such a
statement can resume what was over long ago. `RecordLeft` says when an entry is left that way,
`EnteredAgain` when it makes a difference, `OldIsNeverResumed` which loops are safe, and `GeneratorLoops` has
two that are not: in one, every `next` throws again an exception that was caught. `GeneratorDelegate` is
`yield*`, which is again not quite the standard's (section 14.4.14): `PassesAgree` and `StartsRightExactly`
say when its calls and its start are.

**Application instances** (`Lifecycle`, `LifecycleLaws`). Handlers, monitors and spawners step the same
rows, one database operation at a time, with whatever they read before. The unique key is the only
guard against two live instances at a host. It works as intended exactly if no PATCH writes to a row
whose key was given up after the PATCH had read it. An address conflict found by a spawner stops an
instance without giving up its key; unless another handler is just about to write to that row, its host
can never be used again.

**Environment trees** (`EnvironmentTree`, `EnvironmentTreeLaws`, `EnvironmentTreeOrder`,
`EnvironmentTreeLeaves`, `EnvironmentTreeRoundTrip`). Flat configuration keys are parsed into nested
dictionaries and lists. The parser undoes printing exactly for trees without a dictionary whose keys are all integers. Its result
depends on the order of its input exactly if, somewhere, a list is made of keys without later components
two of which are the same number and have different entries; groups come in the order of their names. Its
leaves correspond one to one to the keys that no longer key shadows. The example in the source's own
documentation does not have the values that its input has.

**Browser code** (`UploadQueue`, `BulkDelete`, `LiveSearch`). Each wait is the end of a step, and steps
interleave in any way. Live search restores every control but the search box when going back in
history, so that results can be cached under the wrong search; and a late failure wipes out results it
has nothing to do with. A comment in the source says that bulk deletion goes on with the next folder when
a listing fails; the code asks for the same listing again, and so does the model.

**Sign-on** (`SsoSession`, `SsoFlow`). Sessions are only added to, and the authorisation code flow of
sections 4.1.1 to 4.1.4 of RFC 6749 keeps its state in them. A token is only given to whoever presents
the cookie of the redirect that the state belongs to, for any configured peer groups none of which ends in
another after the separator of the store's keys. The state is decoded once by the framework and
once more by the handler, so that URLs with percent escapes do not survive it.

**Host names** (`HostNames`). What prints host names of applications, and the two parsers that take
them apart.

**Audit logs and changelogs** (`LogSync`, `Changelog`). Windows of time that are to leave no line of an
audit log out, and changelogs that are to describe every state of a table. A line is lost exactly if some
run does not go back far enough for it before it is recorded, and a record lacks its tables exactly if its
run failed between the two: later runs never make up for it. An entry of a changelog shows
no change exactly if the recorded structures differ as texts, and neither what they decode to nor the
table nor the hash does.

`Text` and `PythonInt` are strings and integers as Python has them, and `Wrappers` is for values that
may be missing.

## How the model is built

Objects with fields that methods update are classes here, and loops are loops. Each method is proved
against a function from the old state to the new one, so that interleavings can be written as sequences
of steps: `Legal` says that a sequence of steps can be taken, `Final` where it leads. Parameters stand
for what the model does not compute: the parse tree of a query, the answers of a server, the results of
calls, the clock, fresh identifiers, cookies and keys.

## Model

| member | source | states |
|---|---|---|
| SqlTables.CollectTables | dataworkspace/dataworkspace/datasets_db.py:167-195 | The worklist collects exactly the free tables of the first statement: a plain WITH shows each expression the names before it, a recursive one shows all of them all names, the body sees every name, a qualified name is never hidden; the loop ends because the queued subtrees shrink |
| SqlTables.EnqueueRecursiveCtes | dataworkspace/dataworkspace/datasets_db.py:176-179 | Queues the expressions of a WITH RECURSIVE, each under all of its names |
| SqlTables.EnqueuePlainCtes | dataworkspace/dataworkspace/datasets_db.py:180-183 | Queues the expressions of a plain WITH, each under the names before it |
| SqlTables.EnqueueItems | dataworkspace/dataworkspace/datasets_db.py:193-195 | Queues the dictionaries among the items of a tuple, and nothing below a tuple inside it |
| SqlTables.EnqueueFields | dataworkspace/dataworkspace/datasets_db.py:190-195 | Queues the dictionaries one level below a node, through at most one tuple |
| SqlTables.Sorted | dataworkspace/dataworkspace/datasets_db.py:197 | The elements of the set without repeats, by schema and within a schema by name: of two neighbours or any others, the first is a beginning of the second or has the smaller character where they first differ |
| SqlTables.ExtractQueriedTables | dataworkspace/dataworkspace/datasets_db.py:157-197 | Nothing on a parse error or an empty text; else the free tables of the first statement, in that order |
| SqlTableTrails.TablesAreNamed | dataworkspace/dataworkspace/datasets_db.py:167-195 | The free tables are those named at the end of a trail of dictionaries, each a value of the one before, an item of a tuple that is one, or a common table expression under the names it sees: with the schema written there, and as public if none is written and the name is not in scope, or an empty one |
| SqlTableTrails.SchemasAreKept | dataworkspace/dataworkspace/datasets_db.py:185-188 | A table written with a schema where the walk gets to is extracted under that schema; and every extracted table is written so, or is public and written without a schema or with an empty one |
| SqlTableLaws.ScopeSubtracts | dataworkspace/dataworkspace/datasets_db.py:185-188 | Whatever names are in scope, the result is the qualified tables and, as public, the free names not in scope, where free names are computed bottom-up |
| SqlTableLaws.LargerScopeHidesOnlyItsNames | dataworkspace/dataworkspace/datasets_db.py:185-188 | Adding names to the scope removes nothing but public tables of those names |
| SqlTableLaws.WalkMissesHidden | dataworkspace/dataworkspace/datasets_db.py:190-195 | The tables on all edges of the tree are those found and those below a tuple inside a tuple; the walk is complete if and only if the latter are also read elsewhere |
| SqlTableLaws.SubqueryInValuesIsMissed | dataworkspace/dataworkspace/datasets_db.py:193-195 | A subquery in a VALUES row is read by the query and not found |
| SqlTableLaws.RenameSwaps | dataworkspace/dataworkspace/datasets_db.py:175-188 | Renaming a free name to a fresh one renames it among the free names and leaves the qualified tables alone |
| SqlTableLaws.RenamingIsInvisible | dataworkspace/dataworkspace/datasets_db.py:175-188 | Renaming one common table expression of a statement to a fresh name, with its references, leaves the extracted tables as they are |
| SqlTableRenaming.VariantsAgree | dataworkspace/dataworkspace/datasets_db.py:167-195 | So does renaming any of them, in the statement or at any depth inside it, along the edges of the walk or along all of them |
| GeneratorContext.Context.Stop | dataworkspace/dataworkspace/static/regenerator-runtime.js:550-560 | Marks the context done and gives its return value, or throws what the root entry holds |
| GeneratorContext.ZoneIs | dataworkspace/dataworkspace/static/regenerator-runtime.js:583-613 | Which locations a try entry catches, holds up for its finally block, or rejects as malformed |
| GeneratorContext.DispatchedTo | dataworkspace/dataworkspace/static/regenerator-runtime.js:562-620 | An exception goes to the innermost entry that handles the place, ends the generator if there is none, and is thrown on if it is done |
| GeneratorContext.CompletedAs | dataworkspace/dataworkspace/static/regenerator-runtime.js:656-673 | A record without a finally block on its way throws, jumps, sets up the return or goes on after the block |
| GeneratorContext.AbortedAt | dataworkspace/dataworkspace/static/regenerator-runtime.js:622-651 | A completion is saved in the innermost entry whose finally block guards the place, but for a jump that stays within that entry; without such an entry it takes effect at once |
| GeneratorContext.FinishedAt | dataworkspace/dataworkspace/static/regenerator-runtime.js:675-684 | The end of a finally block resumes what its innermost entry has saved and forgets it unless it throws it |
| GeneratorContext.CaughtAt | dataworkspace/dataworkspace/static/regenerator-runtime.js:686-702 | A catch block gets the exception that its entry has saved, once; one without an entry is an error |
| GeneratorContext.Context.Complete | dataworkspace/dataworkspace/static/regenerator-runtime.js:656-673 | Rethrows, jumps, sets up the return, or goes on after the block, as the record says |
| GeneratorContext.Context.DispatchException | dataworkspace/dataworkspace/static/regenerator-runtime.js:562-620 | The backward scan picks the last entry that handles the place: its catch block, its finally block with the exception saved, or the end; it throws if the context is done or the entry is malformed |
| GeneratorContext.Context.Abrupt | dataworkspace/dataworkspace/static/regenerator-runtime.js:622-654 | The backward scan picks the last entry whose finally block guards the place; the record is saved there unless a jump stays within that entry, else it takes effect at once |
| GeneratorContext.Context.Finish | dataworkspace/dataworkspace/static/regenerator-runtime.js:675-684 | The entry of the finally block resumes its saved completion and is reset, unless it rethrows |
| GeneratorContext.Context.Catch | dataworkspace/dataworkspace/static/regenerator-runtime.js:686-702 | The entry of the try gives the exception it saved and is reset; an unknown one is an error |
| GeneratorUnwinding.UnwindsOutward | dataworkspace/dataworkspace/static/regenerator-runtime.js:562-684 | An exception or a return inside nested try-finally statements, whatever their plain finally blocks do as long as they end normally, runs each block exactly once, innermost first, and comes out with its own value |
| GeneratorUnwinding.ReachesCatch | dataworkspace/dataworkspace/static/regenerator-runtime.js:583-611 | After those finally blocks the catch block around them is entered with the value that was thrown |
| GeneratorUnwinding.JumpRunsInnermostOnly | dataworkspace/dataworkspace/static/regenerator-runtime.js:622-654 | A jump out of nested try-finally statements, from any body, runs the innermost finally block and none of the others |
| GeneratorUnwinding.NestedJumpAgrees | dataworkspace/dataworkspace/static/regenerator-runtime.js:633-650 | Such a jump shows what the standard says if and only if the blocks passed over would have shown nothing |
| GeneratorUnwinding.NestedEffectsAgree | dataworkspace/dataworkspace/static/regenerator-runtime.js:633-650 | With blocks that each have an effect, if and only if there is at most one |
| GeneratorAgreement.PlainFinalizerAgrees | dataworkspace/dataworkspace/static/regenerator-runtime.js:675-684 | A finally block without jumps and try-finally statements of its own does what the standard says, however it was entered; an exception that is pending stays so until the block takes a call or catches something |
| GeneratorAgreement.TryAgreesExactly | dataworkspace/dataworkspace/static/regenerator-runtime.js:661-684 | A try-finally statement whose guarded part does as the standard says does so too, if and only if it does not resume what its entry held before |
| GeneratorAgreement.PlainAgrees | dataworkspace/dataworkspace/static/regenerator-runtime.js:562-684 | A plain statement (plain finally blocks, no jump through two of them), loops included, does what section 13.15 of ECMA-262, 6th edition, says, for as long as nothing old is resumed: log, completion, remaining calls, and the return value that is kept |
| GeneratorAgreement.AgreesThroughout | dataworkspace/dataworkspace/static/regenerator-runtime.js:562-684 | All parts of a plain statement, as far as its run gets to them, do what the standard says in log, completion, remaining calls and kept return value, if and only if nothing old is resumed |
| GeneratorAgreement.ProgramAgreesThroughout | dataworkspace/dataworkspace/static/regenerator-runtime.js:243-319 | The same of whole plain programs, whatever their loops |
| GeneratorAgreement.LeavesEmpty | dataworkspace/dataworkspace/static/regenerator-runtime.js:675-684 | A round of a loop that goes on leaves the entries empty, if no try-finally statement lies in the guarded part of a try-catch statement and finally blocks do not jump |
| GeneratorAgreement.OldIsNeverResumed | dataworkspace/dataworkspace/static/regenerator-runtime.js:675-684 | In a program whose loops are like that, nothing old is ever resumed |
| GeneratorAgreement.PlainProgramsAgree | dataworkspace/dataworkspace/static/regenerator-runtime.js:243-319 | A whole plain program, with such loops, shows what the standard says for a sequence of calls if and only if: started by next, it does not fall off its end after a return that went through a finally block and was overridden; told to return first, it does not start in a guarded region, or shows nothing before that return |
| GeneratorAgreement.ReturnBeforeStart | dataworkspace/dataworkspace/static/regenerator-runtime.js:309-311 | A return before the first next, when the program starts in a region guarded by a finally block, shows what the standard says of the program that returns there |
| GeneratorAgreement.ShowsReturnOnly | dataworkspace/dataworkspace/static/regenerator-runtime.js:309-311 | That is what section 25.3.3 says if and only if that program shows nothing and returns that value |
| GeneratorDepartures.ReturnBeforeStartRunsFinally | dataworkspace/dataworkspace/static/regenerator-runtime.js:309-311 | Such a return runs a finally block that section 25.3.3 says it does not run |
| GeneratorUnwinding.NestedJumpSkipsOuterFinally | dataworkspace/dataworkspace/static/regenerator-runtime.js:633-650 | A jump through two finally blocks skips the outer one, against the standard |
| GeneratorDepartures.JumpInFinally | dataworkspace/dataworkspace/static/regenerator-runtime.js:661-663 | A jump at the end of a finally block does what the standard says if and only if the block does not get to the jump, or no exception is pending when it does, or the jump has another finally block to go through |
| GeneratorDepartures.JumpDoesNotReplaceException | dataworkspace/dataworkspace/static/regenerator-runtime.js:661-663 | A jump out of a finally block entered by an exception does not swallow the exception, against the standard |
| GeneratorDepartures.TryInFinally | dataworkspace/dataworkspace/static/regenerator-runtime.js:668-670 | A try-finally statement in a finally block, with or without a handler, between plain statements any of which may end abruptly, is run as the standard says together with what follows it if and only if the block does not get to the normal end of that statement, or no exception is pending there, or what follows shows nothing and ends normally or with the same completion |
| GeneratorDepartures.NestedFinallyCutsShort | dataworkspace/dataworkspace/static/regenerator-runtime.js:668-670 | A finally block entered by an exception is cut short by a try-finally statement inside it, against the standard |
| GeneratorDepartures.OverriddenReturnIsReported | dataworkspace/dataworkspace/static/regenerator-runtime.js:550-560 | The value of an overridden return is reported when the program falls off its end, against the standard |
| GeneratorReentry.EnteredAgain | dataworkspace/dataworkspace/static/regenerator-runtime.js:661-684 | A try-finally statement, whatever its entry holds when it is entered, behaves as if it held nothing, if and only if it does not end by resuming that: guarded part and handler and finally block all end normally, the handler has not run, and what is held makes a difference |
| GeneratorReentry.RecordLeft | dataworkspace/dataworkspace/static/regenerator-runtime.js:675-684 | Entered with an empty entry, it leaves one that is not if and only if it throws an exception on, or its finally block overrides a completion or does not end |
| GeneratorReentry.HandlerLeavesNothing | dataworkspace/dataworkspace/static/regenerator-runtime.js:686-702 | A try statement without a finally block leaves its entry empty |
| GeneratorSites.EntriesWithin | dataworkspace/dataworkspace/static/explorer-ie11-compat.js:632-675 | The try entries of compiled code lie within the code of their statements |
| GeneratorSites.EntriesDistinct | dataworkspace/dataworkspace/static/explorer-ie11-compat.js:632-675 | No two try entries share a try location or a finally location |
| GeneratorSites.PlacedParts | dataworkspace/dataworkspace/static/explorer-ie11-compat.js:632-675 | The parts of a compiled try statement see the rest of the program as the whole does, and their own try entry in addition |
| GeneratorSites.PlacedRound | dataworkspace/dataworkspace/static/explorer-ie11-compat.js:784-844 | The body of a compiled loop sees the rest of the program as the loop does, and has the head of the loop for a target |
| GeneratorSimulation.Simulate | dataworkspace/dataworkspace/static/regenerator-runtime.js:243-319 | From the first location of any statement, at any depth, and whatever the try entries hold, steps of the driving loop, context and compiled code lead to where the structured semantics of the runtime says, with its log, remaining calls, hidden state and entries, and leave the entries of other statements alone |
| GeneratorSimulation.SimulateLoop | dataworkspace/dataworkspace/static/explorer-ie11-compat.js:784-844 | The same for a loop, round after round: a round that ends, or continues, leads back to the head |
| GeneratorSimulation.SimulateTry | dataworkspace/dataworkspace/static/regenerator-runtime.js:562-684 | The same for a try statement: guarded part, handler, saved completion, finally block, resumption |
| GeneratorSimulation.EnterHandler | dataworkspace/dataworkspace/static/regenerator-runtime.js:598-608 | An exception from anywhere in the guarded part enters the handler of the innermost try with its value |
| GeneratorSimulation.AbortToFinally | dataworkspace/dataworkspace/static/regenerator-runtime.js:622-651 | A return or an outward jump from anywhere before the finally block is saved in the innermost guarding entry, and the block is entered |
| GeneratorSimulation.EnterFinally | dataworkspace/dataworkspace/static/regenerator-runtime.js:594-651 | However the guarded part ended, its finally block is entered, with an abrupt completion saved in the entry and the entry left as it was after a normal one |
| GeneratorSimulation.FinishFinally | dataworkspace/dataworkspace/static/regenerator-runtime.js:675-684 | At the end of its finally block the statement resumes whatever its entry holds, and empties it unless that is an exception |
| GeneratorRuns.StaysOver | dataworkspace/dataworkspace/static/regenerator-runtime.js:251-259 | Once over, a generator answers every next and return with undefined, done, and every throw with its own exception |
| GeneratorRuns.EndsThrowing | dataworkspace/dataworkspace/static/regenerator-runtime.js:550-592 | An exception that no try entry handles ends the generator and reaches the caller with its own value |
| GeneratorRuns.EndsReturning | dataworkspace/dataworkspace/static/regenerator-runtime.js:309-344 | A return that no finally block stops ends the generator with its own value |
| GeneratorRuns.SimulateOpened | dataworkspace/dataworkspace/static/regenerator-runtime.js:309-311 | A return before the start runs the first finally block and the rest of the program |
| GeneratorRuns.StartIsFree | dataworkspace/dataworkspace/static/regenerator-runtime.js:622-631 | If the program does not start in a region guarded by a finally block, no try entry guards its first location |
| GeneratorRuns.CompiledRuns | dataworkspace/dataworkspace/static/regenerator-runtime.js:243-319 | Every compiled program, loops included, answers every sequence of calls unless a loop goes round without taking one, and what it shows is what the structured semantics of the runtime says |
| GeneratorRuns.WaitingLoopsAnswer | dataworkspace/dataworkspace/static/regenerator-runtime.js:243-319 | If every round of every loop starts by waiting for a call, all calls are answered |
| GeneratorRuns.RunsWithMore | dataworkspace/dataworkspace/static/regenerator-runtime.js:246-319 | A statement that ends takes no notice of the calls after those it has taken |
| GeneratorObject.Generator.Inner | dataworkspace/dataworkspace/static/explorer-ie11-compat.js:632-675 | The compiled switch runs until it returns a value, the sentinel, or throws, as the steps of the machine say |
| GeneratorObject.Generator.Round | dataworkspace/dataworkspace/static/regenerator-runtime.js:261-318 | One round of the driving loop is a number of steps of the machine |
| GeneratorObject.Generator.Finish | dataworkspace/dataworkspace/static/regenerator-runtime.js:282-318 | What a record does to state, mode, argument and answer |
| GeneratorObject.Generator.Invoke | dataworkspace/dataworkspace/static/regenerator-runtime.js:246-319 | One call, loop and all, leaves the generator where the machine halts |
| GeneratorObject.NextCall | dataworkspace/dataworkspace/static/regenerator-runtime.js:246-319 | A further call of a compiled generator halts, and continues the run of the calls before it |
| GeneratorObject.Drive | dataworkspace/dataworkspace/static/regenerator-runtime.js:243-319 | Calling a compiled generator object again and again shows what the structured semantics of the runtime says |
| GeneratorLoops.CaughtAgain | dataworkspace/dataworkspace/static/regenerator-runtime.js:675-684 | In a compiled loop, an exception passed on by a finally block and then caught is caught again in every later round, however many there are; the standard goes on without it |
| GeneratorLoops.ReplacedReturnComesBack | dataworkspace/dataworkspace/static/regenerator-runtime.js:675-684 | In a compiled loop, a return that a continue in its finally block has replaced is resumed the next time that block ends, and the generator finishes with its value; the standard goes on |
| GeneratorDelegate.Delegation.MaybeInvokeDelegate | dataworkspace/dataworkspace/static/regenerator-runtime.js:325-393 | Passes a call on to the other iterator, closes it if it cannot take an exception, and ends the delegation when it throws, is done, or gives no result |
| GeneratorDelegate.Delegation.DelegateYield | dataworkspace/dataworkspace/static/regenerator-runtime.js:704-718 | Delegation starts with the mode the context has, and forgets the argument only of a next |
| GeneratorDelegate.PassesAgree | dataworkspace/dataworkspace/static/regenerator-runtime.js:325-393 | A call is passed on as section 14.4.14 of ECMA-262, 6th edition, says if and only if the other iterator does not answer with a value that is no object, nor a return with another value than was to be returned |
| GeneratorDelegate.DelegationsAgree | dataworkspace/dataworkspace/static/regenerator-runtime.js:261-268 | The same for a whole delegation, however it is called |
| GeneratorDelegate.EndsAtNext | dataworkspace/dataworkspace/static/regenerator-runtime.js:374-401 | The location after the expression is the next one exactly once the other iterator is done; its last value is then kept for the expression, and nothing is left of what was sent |
| GeneratorDelegate.WhenDeviating | dataworkspace/dataworkspace/static/regenerator-runtime.js:365-401 | What comes of the two kinds of deviation: a value that is no object goes to the caller like a result, and a return goes on with the value that was to be returned |
| GeneratorDelegate.ExceptionReachesDelegate | dataworkspace/dataworkspace/static/regenerator-runtime.js:714-717 | Begun in a finally block entered by an exception, a delegation gives the other iterator the exception before anything else, as section 14.4.14 would handle a call of throw, if and only if the answer does not deviate; an iterator with neither throw nor return gets nothing and the exception is replaced; the standard asks for the first value |
| GeneratorDelegate.StartsRightExactly | dataworkspace/dataworkspace/static/regenerator-runtime.js:704-718 | Every delegation, whatever the other iterator, its answers and the calls, starts as the standard says, with a next without a value, if and only if the context was last resumed with next |
| Lifecycle.Instances.Get | dataworkspace/dataworkspace/apps/applications/utils.py:204-211 | The single live instance at a host, none, or too many |
| Lifecycle.Instances.PutCheck | dataworkspace/dataworkspace/apps/api_v1/views.py:139-148 | A PUT goes on if and only if no instance is live at the host; if one is, it is answered that the instance exists, and if more are, it fails |
| Lifecycle.Instances.PutCreate | dataworkspace/dataworkspace/apps/api_v1/views.py:175-199 | The insert succeeds if and only if no row has the host for its key, and then spawns |
| Lifecycle.Instances.PutFetch | dataworkspace/dataworkspace/apps/api_v1/views.py:189-190 | A refused PUT is answered with the one live instance, or fails |
| Lifecycle.Instances.PatchRead | dataworkspace/dataworkspace/apps/api_v1/views.py:203-216 | The first half of a PATCH reads the live instance and whether it lacks a start time |
| Lifecycle.Instances.PatchWrite | dataworkspace/dataworkspace/apps/api_v1/views.py:214-219 | The second half writes the state, and the start time only if the first half saw none |
| Lifecycle.Instances.SetApplicationStopped | dataworkspace/dataworkspace/apps/applications/utils.py:327-330 | Stopping writes both the state and the key |
| Lifecycle.Instances.HaltConflicting | dataworkspace/dataworkspace/apps/applications/spawner.py:496-498 | A conflicting instance gets its state written and keeps its key |
| LifecycleLaws.KeyedStep | dataworkspace/dataworkspace/apps/api_v1/views.py:139-232 | A step of any handler, monitor or spawner keeps keys unique and live rows keyed by host if and only if it is not a late PATCH to a row whose key was given up |
| LifecycleLaws.KeyedRuns | dataworkspace/dataworkspace/apps/api_v1/views.py:139-232 | In a whole run the keys are in order throughout if and only if there is no such late PATCH |
| LifecycleLaws.SaneRuns | dataworkspace/dataworkspace/apps/api_v1/views.py:175-219 | In every run each row was spawned exactly once and every running row has a start time |
| LifecycleLaws.OneLiveRow | dataworkspace/dataworkspace/apps/applications/models.py:290-297 | With the keys in order a host has at most one live row |
| LifecycleLaws.ForwardStep | dataworkspace/dataworkspace/apps/api_v1/views.py:203-219 | Rows go from spawning to running to stopped if and only if no PATCH writes to a stopped row |
| LifecycleLaws.StampsStep | dataworkspace/dataworkspace/apps/api_v1/views.py:216-218 | Start times stay if and only if no PATCH overwrites one set since it read the row |
| LifecycleLaws.LifeRuns | dataworkspace/dataworkspace/apps/api_v1/views.py:203-219 | In a run without late PATCHes no row ever goes back and no start time ever changes |
| LifecycleLaws.AtomicRuns | dataworkspace/dataworkspace/apps/api_v1/views.py:203-219 | If every PATCH writes right after it reads, none is ever late |
| LifecycleLaws.AtomicRunsAreSafe | dataworkspace/dataworkspace/apps/api_v1/views.py:139-232 | From an empty table and with such PATCHes, in every interleaving: keys in order, one live row a host, one spawn a row, start times present |
| LifecycleLaws.ConcurrentPuts | dataworkspace/dataworkspace/apps/api_v1/views.py:175-199 | However many PUTs run against a free host at once, exactly one inserts |
| LifecycleLaws.LosersFindWinner | dataworkspace/dataworkspace/apps/api_v1/views.py:189-190 | No PUT that comes too late is given any other answer than that the instance exists, or the instance itself |
| LifecycleLaws.CheckAnswers | dataworkspace/dataworkspace/apps/api_v1/views.py:139-148 | The check gives exactly one answer if some instance is live, and none if the PUT goes on |
| LifecycleLaws.PutsAreAnswered | dataworkspace/dataworkspace/apps/api_v1/views.py:139-199 | In every run, answers given and PUTs on their way together are those there were and those that came: each PUT gets one answer, and none is taken back |
| LifecycleLaws.PutsComplete | dataworkspace/dataworkspace/apps/api_v1/views.py:139-199 | However many PUTs run against a free host at once, when none is on its way any more each has its one answer: exactly one created the instance, and the others are told that it exists, or which it is |
| LifecycleLaws.StoppedBetweenInserts | dataworkspace/dataworkspace/apps/applications/models.py:290-297 | In any run at all, between two inserts at a host the first instance was stopped |
| LifecycleLaws.StopFreesHost | dataworkspace/dataworkspace/apps/applications/utils.py:327-330 | Stopping the holder of a host frees the host; halting it does not |
| LifecycleLaws.HaltWedges | dataworkspace/dataworkspace/apps/applications/spawner.py:496-498 | Halting wedges a host if and only if no other handler is about to write to the row |
| LifecycleLaws.WedgedForever | dataworkspace/dataworkspace/apps/applications/spawner.py:496-498 | No continuation of any kind inserts at a wedged host again |
| LifecycleLaws.WedgedPutFails | dataworkspace/dataworkspace/apps/api_v1/views.py:139-190 | At a wedged host a PUT passes its check, is refused its insert, and fails |
| LifecycleLaws.LatePatchMakesTwo | dataworkspace/dataworkspace/apps/api_v1/views.py:203-219 | A run in which a late PATCH leads to two live instances at a host |
| LifecycleLaws.LatePatchRestamps | dataworkspace/dataworkspace/apps/api_v1/views.py:216-218 | A run in which a late PATCH overwrites a start time |
| LifecycleLaws.ConflictWedgesHost | dataworkspace/dataworkspace/apps/applications/spawner.py:496-498 | A run in which an address conflict wedges a host |
| EnvironmentTree.JoinSplit | dataworkspace/dataworkspace/utils.py:43-47 | Joining the components of a key gives the key |
| EnvironmentTree.Components | dataworkspace/dataworkspace/utils.py:43-47 | The first component is what is before the first separator, the later ones what is after it |
| EnvironmentTree.GroupShrinks | dataworkspace/dataworkspace/utils.py:64-75 | Every key passed down is strictly shorter, so that the recursion ends |
| EnvironmentTreeLaws.EntriesAre | dataworkspace/dataworkspace/utils.py:49-75 | What each entry of a level is: the tree of its group, or the value of a key without later components that no group takes the place of |
| EnvironmentTreeLaws.SortUnique | dataworkspace/dataworkspace/utils.py:94-99 | Sorting by integer keys depends on the entries alone if no two keys are the same number |
| EnvironmentTreeOrder.SortIsStable | dataworkspace/dataworkspace/utils.py:94-99 | Sorting by integer keys keeps the order of keys that are the same number |
| EnvironmentTreeOrder.ListsAgree | dataworkspace/dataworkspace/utils.py:94-99 | Two levels become the same list if and only if, number by number, their values come in the same order |
| EnvironmentTreeOrder.OrderDoesNotMatter | dataworkspace/dataworkspace/utils.py:49-101 | The result is the same for every order of the pairs if and only if, at every level that becomes a list, keys without later components that are the same number have the same entry |
| EnvironmentTreeOrder.TiesKeepOrder | dataworkspace/dataworkspace/utils.py:94-99 | Two such keys with different values: each order has its own result |
| EnvironmentTreeLeaves.ValueAtPlace | dataworkspace/dataworkspace/utils.py:49-101 | Every key that no longer key continues has its value at its own place in the tree |
| EnvironmentTreeLeaves.LeafHasKey | dataworkspace/dataworkspace/utils.py:49-101 | Every leaf of the tree is at the place of such a key, with its value |
| EnvironmentTreeLeaves.PlacesDiffer | dataworkspace/dataworkspace/utils.py:49-101 | No two such keys share a place, so that leaves and unshadowed keys correspond one to one |
| EnvironmentTreeLeaves.ShadowedAtOnce | dataworkspace/dataworkspace/utils.py:49-75 | A key without later components is shadowed exactly if there is a group of its name |
| EnvironmentTreeRoundTrip.PathStarts | dataworkspace/dataworkspace/utils.py:43-47 | A printed path goes through the component it starts with and no other |
| EnvironmentTreeRoundTrip.PrintTree | dataworkspace/dataworkspace/utils.py:4-26 | Every tree of non-empty dictionaries and lists with good components has pairs that print it |
| EnvironmentTreeRoundTrip.RoundTrip | dataworkspace/dataworkspace/utils.py:39-101 | Such a tree comes back from its paths, in any order, if and only if it has no dictionary whose keys are all integers |
| PythonInt.DecimalIsInt | dataworkspace/dataworkspace/utils.py:80-91 | A numeral is read back as the number it prints |
| PythonInt.SignedIsInt | dataworkspace/dataworkspace/utils.py:80-91 | A sign before a numeral is read, and spaces around it are not |
| UploadQueue.Uploads.Run | dataworkspace/dataworkspace/static/explorer.js:286-297 | A new file waits if all slots are taken; else it takes a slot and the head of the queue starts |
| UploadQueue.Uploads.StartNext | dataworkspace/dataworkspace/static/explorer.js:367-386 | The head of the queue starts, or counts itself as done at once if the dialogue is closed |
| UploadQueue.Uploads.TaskEnds | dataworkspace/dataworkspace/static/explorer.js:383-390 | The end of an upload counts it as done, and reloads the listing if it was the last |
| UploadQueue.Uploads.LoopOn | dataworkspace/dataworkspace/static/explorer.js:291-297 | A loop that goes on starts the head of the queue, or gives up its slot if there is none |
| UploadQueue.QueueRuns | dataworkspace/dataworkspace/static/explorer.js:282-392 | In every interleaving: the slots are bounded, waiting files mean full slots, files start once and in order, what remains is what is not done, and the reload happens exactly when nothing remains |
| UploadQueue.ConnectionsBounded | dataworkspace/dataworkspace/static/explorer.js:303-318 | As many files as there are, but at most four, are in flight at once; files in flight times connections a file never exceed four, and with one connection more a file they could |
| UploadQueue.OpenUploads | dataworkspace/dataworkspace/static/explorer.js:345-392 | While the dialogue is open every file that starts is uploaded, and each upload ends at most once |
| UploadQueue.ClosedUploads | dataworkspace/dataworkspace/static/explorer.js:334-339 | Once it is closed no upload begins any more |
| UploadQueue.RestIsDone | dataworkspace/dataworkspace/static/explorer.js:345-392 | A queue at rest has started every file once, in order, and reloaded the listing once |
| UploadQueue.ComesToRest | dataworkspace/dataworkspace/static/explorer.js:282-299 | After the last file the queue takes no more steps than it has work left, and is stuck at no time before it rests |
| BulkDelete.Deleter.DeleteKeys | dataworkspace/dataworkspace/static/explorer.js:758-769 | The batch is submitted, and gone whether the call fails or not |
| BulkDelete.Deleter.ScheduleDelete | dataworkspace/dataworkspace/static/explorer.js:771-774 | The key goes to the end of the batch; the thousandth submits it, and nothing else does; fails if and only if that call does |
| BulkDelete.Deleter.FlushDelete | dataworkspace/dataworkspace/static/explorer.js:776-778 | A partial batch is submitted; nothing is pending afterwards |
| BulkDelete.DeletePage | dataworkspace/dataworkspace/static/explorer.js:484-493 | The keys of a page are scheduled in order, all of them unless the dialogue is closed or the last call failed, and only full batches are submitted |
| BulkDelete.DeletePages | dataworkspace/dataworkspace/static/explorer.js:467-493 | Of each page read, a first part is scheduled, in order; all of it if no deletion fails and the dialogue stays open. A listing that fails is asked for again, no page is left out until the dialogue is closed, and only full batches are submitted |
| BulkDelete.DeleteFolders | dataworkspace/dataworkspace/static/explorer.js:459-503 | A folder whose deletion fails does not keep the next ones from being deleted, and each folder takes the fewest calls that its keys can be deleted with |
| BulkDelete.DeleteFiles | dataworkspace/dataworkspace/static/explorer.js:442-541 | Batches followed by pending keys are what was scheduled: first parts of pages and then of the objects. It is cut short only by the closing of the dialogue, with at most one call after that, or by a failing call for an object; without either, and without failed deletions, whatever listings fail, every key of every page and object is submitted in order, in the fewest calls |
| LiveSearch.Search.FormChange | dataworkspace/dataworkspace/static/search-v2.js:2291-2325 | A changed form becomes the state, and its results are shown or asked for |
| LiveSearch.Search.PopState | dataworkspace/dataworkspace/static/search-v2.js:2274-2285 | Going back restores the state and all controls but the search box, and asks for results with what is in the form |
| LiveSearch.Search.UpdateResults | dataworkspace/dataworkspace/static/search-v2.js:2339-2363 | Cached results are displayed; others are requested with the form and remembered under the state |
| LiveSearch.Search.DisplayFilterResults | dataworkspace/dataworkspace/static/search-v2.js:2397-2407 | Results replace what is shown if they are for the current, non-empty state |
| LiveSearch.Search.Done | dataworkspace/dataworkspace/static/search-v2.js:2350-2353 | A reply is cached under the state of its request, and displayed if that is current |
| LiveSearch.Search.ShowError | dataworkspace/dataworkspace/static/search-v2.js:2354-2356 | A failure replaces what is shown, whatever it was for |
| LiveSearch.SentStep | dataworkspace/dataworkspace/static/search-v2.js:2339-2349 | A step keeps requests asking for what their replies are cached as if and only if it does not go back to an uncached state with other text in the search box |
| LiveSearch.CacheRuns | dataworkspace/dataworkspace/static/search-v2.js:2266-2406 | In every interleaving requests stay right if and only if nothing goes back in that way, and then every cache entry is the answer to its key |
| LiveSearch.CacheStep | dataworkspace/dataworkspace/static/search-v2.js:2350-2353 | A step keeps the cache right if and only if it is not a reply with another answer than that to its key: if the server tells keys apart, a reply to a request sent for another key |
| LiveSearch.CacheStaysRight | dataworkspace/dataworkspace/static/search-v2.js:2339-2407 | In every interleaving the cache is right all the time if and only if no such reply comes |
| LiveSearch.CurrentStep | dataworkspace/dataworkspace/static/search-v2.js:2339-2407 | A step keeps the current results shown or on their way if and only if it is not a failure with no other request for the current state |
| LiveSearch.CurrentRuns | dataworkspace/dataworkspace/static/search-v2.js:2339-2407 | In every interleaving that never goes back misleadingly, the current results stay shown or on their way all the time if and only if no failure comes with no other request for the current state; and then, once that is answered, they are shown |
| LiveSearch.ShownStep | dataworkspace/dataworkspace/static/search-v2.js:2339-2407 | A step changes what is shown only to kept results of the state it leads to, to an answer for the current state, or to a failure, and then it does; a reply for a state that was left changes nothing |
| LiveSearch.ShownRuns | dataworkspace/dataworkspace/static/search-v2.js:2339-2407 | In every interleaving, what is shown at the end is what the last such step shows |
| LiveSearch.RequestsRun | dataworkspace/dataworkspace/static/search-v2.js:2339-2353 | In every interleaving, each look for results that are not kept sends one request with what is in the form, each request ends at most once, and results are kept for exactly the keys that had a reply |
| LiveSearch.BackPoisonsCache | dataworkspace/dataworkspace/static/search-v2.js:2452-2458 | A run that caches the results of one search under another |
| LiveSearch.FailureOverwrites | dataworkspace/dataworkspace/static/search-v2.js:2369-2374 | A late failure of a request for a state left behind replaces the results of the current one |
| SsoSession.RedisKeyInjective | dataworkspace/proxy_session.py:56-94 | A key in the store tells cookie, peer group and session key apart, whatever the cookie is, if none of the groups ends in another after a separator |
| SsoSession.ApartExactly | dataworkspace/proxy_session.py:60-66 | It does so for all cookies and a set of groups if and only if none of the groups ends in another |
| SsoSession.EndsWithUnderscores | dataworkspace/proxy.py:381-392 | Only a group with underscores can end in another, so that addresses that stand for themselves never do |
| SsoSession.GroupsInUse | dataworkspace/proxy.py:381-387 | Names like my_group, my_group_a and my_group_b do not end in each other |
| SsoSession.GroupsCanAlias | dataworkspace/proxy_session.py:60-66 | If one group ends in another, every session of that one shares its keys with another cookie of the first |
| SsoSession.UnquoteQuote | dataworkspace/proxy.py:1054-1060 | Decoding undoes quoting |
| SsoSession.QuotedIsSafe | dataworkspace/proxy.py:1054-1060 | A quoted text has no characters but letters, digits, percent signs and four others, and is the text itself if and only if that has none to escape |
| SsoSession.UnquoteKeeps | dataworkspace/proxy.py:1062-1064 | Decoding leaves a text alone if and only if it has no percent escape, and shortens it otherwise |
| SsoSession.StateRoundTrip | dataworkspace/proxy.py:1054-1064 | The key comes back from the state; the URL comes back if and only if it has no percent escape |
| SsoFlow.Session.GetValue | dataworkspace/proxy_session.py:56-67 | Nothing without cookie or peer group; else what the store has |
| SsoFlow.Session.WithNewCookie | dataworkspace/proxy_session.py:76-94 | What was set is stored under the new cookie, one key after the other |
| SsoFlow.RedirectionToSso | dataworkspace/proxy.py:1066-1079 | The URL is stored under a fresh key and a fresh cookie; fails if it is not ASCII |
| SsoFlow.HandleCallback | dataworkspace/proxy.py:1096-1132 | If the URL of the state is the one stored under the presented cookie, the token of this callback is stored under the new cookie, and nothing else changes; else sign-on starts again, and fails if the URL is not ASCII |
| SsoFlow.SoundStep | dataworkspace/proxy.py:1081-1132 | Every step accounts for every entry of the store: a redirect made it, or a grant |
| SsoFlow.NothingIsLost | dataworkspace/proxy_session.py:56-94 | In every interleaving the store only grows: no request loses what another has stored |
| SsoFlow.TokensAreEarned | dataworkspace/proxy.py:1096-1132 | In every run, the token in a session is that of a callback of the run which was granted it under this cookie, and an earlier step was a redirect that gave out the cookie the callback presented, to the same peer group, with the key and for the URL that its state named |
| SsoFlow.HonestFlow | dataworkspace/proxy.py:1054-1132 | A client that completes the flow is granted a token if and only if its URL has no percent escape; else it is sent round again for the unescaped URL |
| SsoFlow.HonestClientLands | dataworkspace/proxy.py:1054-1132 | A client that comes back as often as it is sent is granted one token, for its URL with all escapes undone, and has that token in its session, if and only if every URL on the way can be stored |
| HostNames.RPartitionJoined | dataworkspace/dataworkspace/apps/applications/utils.py:105-119 | What is joined by hyphens to a part without any comes apart again at the right place |
| HostNames.RPartitionExactly | dataworkspace/dataworkspace/apps/applications/utils.py:105-119 | A text comes apart around its last separator, and into nothing and itself if it has none |
| HostNames.DirectHostParses | dataworkspace/proxy.py:475-485 | A host with a port appended is parsed back into both, for every host, if and only if the port is valid |
| HostNames.BareHostPasses | dataworkspace/proxy.py:475-485 | A host without a double hyphen is left alone if and only if it is not itself a port number |
| HostNames.UserHostParses | dataworkspace/dataworkspace/apps/applications/utils.py:102-121 | A tool host is parsed back into basename and user if and only if the basename is not empty and does not end in a hyphen after something else |
| HostNames.CommitHostParses | dataworkspace/dataworkspace/apps/applications/utils.py:102-121 | A preview host is parsed back into slug and commit if and only if the slug is not empty and does not look like the tool of a user |
| HostNames.CommitHostPasses | dataworkspace/proxy.py:475-485 | The proxy leaves a preview host alone if and only if the commit is not a port number |
| HostNames.SlugIsSafe | dataworkspace/dataworkspace/apps/applications/views.py:874-880 | A slug has lower-case letters, digits and single hyphens between them |
| HostNames.SlugIsWords | dataworkspace/dataworkspace/apps/applications/views.py:874-880 | A slug is the words of the name joined by hyphens: the letters and digits between hyphens, underscores and spaces, without any other characters and without empty words |
| HostNames.AttemptsDiffer | dataworkspace/dataworkspace/apps/applications/views.py:887-895 | No two of the attempts try the same name |
| HostNames.SlugHostParses | dataworkspace/dataworkspace/apps/applications/views.py:874-895 | The host of a visualisation is parsed back into its slug if and only if the slug does not look like the tool of a user; numbered slugs never do |
| HostNames.DatedNameIsLost | dataworkspace/dataworkspace/apps/applications/utils.py:102-121 | A visualisation named after a day is parsed as a tool |
| HostNames.NumericCommitIsLost | dataworkspace/proxy.py:475-485 | A commit of digits can be parsed as a port |
| LogSync.QueryLogs.Parse | dataworkspace/dataworkspace/apps/applications/utils.py:1300-1341 | The lines after the start of the window and up to its end |
| LogSync.WindowInOrder | dataworkspace/dataworkspace/apps/applications/utils.py:1300-1341 | The window has each line of its time once, in the order of the log |
| LogSync.QueryLogs.DoSync | dataworkspace/dataworkspace/apps/applications/utils.py:1388-1464 | Records the window line by line, skips taken keys, and saves the bound only at the end |
| LogSync.RecordedHas | dataworkspace/dataworkspace/apps/applications/utils.py:1410-1456 | A run keeps existing records, adds only keys of its window, and all of them with their tables if it gets to the end |
| LogSync.RecordsMade | dataworkspace/dataworkspace/apps/applications/utils.py:1410-1456 | A run gets to its end if and only if its writes suffice for a record and its tables for each new key; it makes records for the first new keys of its window, as many as its writes suffice for |
| LogSync.BoundMoves | dataworkspace/dataworkspace/apps/applications/utils.py:1390-1464 | The bound moves to the time of the run, for five minutes, if and only if the run gets to its end; a run starts from the bound, or from five minutes before if that is gone |
| LogSync.RunsCover | dataworkspace/dataworkspace/apps/applications/utils.py:1388-1464 | As long as every run starts while the last bound is in reach, no line since the first is left out, whatever runs fail in between |
| LogSync.OutOfReachIsLost | dataworkspace/dataworkspace/apps/applications/utils.py:1390-1393 | A line not recorded when a run starts out of its reach is never recorded |
| LogSync.RecordedExactly | dataworkspace/dataworkspace/apps/applications/utils.py:1388-1464 | Once the bound has passed a line, the line is recorded if and only if every run had it in reach until it was recorded |
| LogSync.CoveredExactly | dataworkspace/dataworkspace/apps/applications/utils.py:1388-1464 | The windows of a sequence of runs leave no line out if and only if every line up to the last bound is in reach of every run until it is recorded |
| LogSync.LateRunLoses | dataworkspace/dataworkspace/apps/applications/utils.py:1390-1393 | A run that comes after the cached bound has expired leaves a line older than five minutes out, and moves the bound past it |
| LogSync.LostTablesStayLost | dataworkspace/dataworkspace/apps/applications/utils.py:1430-1456 | A record whose run failed before its tables were made never gets them |
| LogSync.TablesExactly | dataworkspace/dataworkspace/apps/applications/utils.py:1430-1456 | All records that a run makes have their tables if and only if it does not fail between a record and its tables |
| LogSync.AllTablesExactly | dataworkspace/dataworkspace/apps/applications/utils.py:1388-1464 | In a sequence of runs, all records made have their tables if and only if no run fails there |
| LogSync.CutRunLoses | dataworkspace/dataworkspace/apps/applications/utils.py:1430-1456 | A run that fails after its first write leaves a record without tables, and no later runs make them |
| Changelog.GetChangelog | dataworkspace/dataworkspace/datasets_db.py:284-334 | Newest first, one entry for each row that is the first or differs from the one before in table, structure text or hash, with the id and date of that row, what it records, and what the row before records |
| Changelog.ChangesTell | dataworkspace/dataworkspace/datasets_db.py:288-332 | The rows that the entries are of, in order: all with news and no others |
| Changelog.ChangesLinked | dataworkspace/dataworkspace/datasets_db.py:288-332 | The first entry starts from nothing, and each later one from where the one before it left off |
| Changelog.StateRebuilt | dataworkspace/dataworkspace/datasets_db.py:304-334 | The state at every row can be read off the changelog |
| Changelog.EntriesChange | dataworkspace/dataworkspace/datasets_db.py:314-331 | Every entry shows a change if and only if no row is followed by one with another text for a structure that decodes alike, and the same table and hash |
| Changelog.EntryWithoutChange | dataworkspace/dataworkspace/datasets_db.py:314-331 | An empty text after none, and two texts that decode alike, make entries that show no change |

## Left out

- The parsing of SQL: the parse tree is an input, and so is the verdict that there is none.
- GeneratorRuns.CompiledRuns: says nothing of runs in which a round of a loop goes by without a call. In the repository's compiled code only loops that wait for something are taken apart into locations. Loops in the model have no condition: leaving one is a jump, a return or an exception.
- GeneratorObject.Drive: says nothing of such runs either.
- GeneratorAgreement.PlainProgramsAgree: is about plain programs in whose loops no try-finally statement lies in the guarded part of a try-catch statement. For other loops `ProgramAgreesThroughout` says when all statements of a run agree, but a run whose whole log agrees although some statement of it does not is not singled out; for other finally blocks `GeneratorDepartures` and `GeneratorUnwinding` of statements.
- Conditions: the programs of the model branch on how they are called and on exceptions, not on values.
- GeneratorDelegate.DelegationsAgree: is about a delegation by itself, not about the try statements around it.
- The temporary variables of a context, and the queue of the asynchronous iterator, which is built on the generator object that is modelled.
- GeneratorObject.Generator.Invoke: takes for granted that the machine halts, which `CompiledRuns` proves for compiled programs; a call from within the running body is answered, and is not part of whole runs.
- Application templates, tool configurations, permissions and the parts of instances that only describe them; spawning is an entry in a list, and stopping a task does not show.
- The uniqueness of ids and their difference from hosts: new ids are fresh, and keys of hosts and of ids are different values.
- PythonInt.DecimalIsInt: Python's `int` also takes digits and spaces of other scripts, which neither this module nor the parsers built on it take.
- What each deleted object is marked with in bulk deletion.
- Live search without a place for results, which leaves the page, and the entries made in the browser's history.
- The queue that sends bookmark clicks in order: it has one request in flight at a time by construction.
- The expiry of sessions, and what is done with a token once there is one.
- SsoFlow.HandleCallback: takes cookies and tokens to be ASCII, and the service that gives tokens out to answer.
- SsoSession.UnquoteKeeps: escapes of bytes from 128 on become characters of their own, where Python decodes runs of them as UTF-8; that they shorten the text and leave ASCII is the same.
- HostNames.SlugHostParses: starts from the lower-cased name; which characters count as spaces is a parameter.
- LogSync.RunsCover: a line is taken to be in the log files by the time of the run whose window it belongs to. Files that change while a run reads them are passed over by one of the two readers.
- The noise filter of audit lines, and users and databases that are not known: lines stand for those that qualify.
- The grouping of datasets on the page of a visualisation, the arithmetic of its permissions, and the hourly windows of the task backfill: short expressions whose laws are those of sets and of numbers.
- Proxying, headers, cookies other than that of the session, metrics, administration pages and everything else that is input, output or configuration.
