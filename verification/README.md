# Realm C++ bridge: a verified model

The C++ SDK is a bridge between typed C++ objects and Realm's core database. Five parts of it
have logic of their own, and this project models those five and proves what they do.

**The query builder.** `where` runs a lambda once. Every comparison in it mutates one shared
builder, every copy of a query aliases the builder's cell (or, in the generated-types build,
copies it), and `&&`, `||` and `!` change their operands. `QueryBuilder` is that machine on the
heap, branch by branch. `QueryCompiler.Compile` says on plain query trees what all the aliasing
amounts to, and `QueryBuilder.Evaluate` proves that it does. On top of that:
the extracted query means what the lambda says for every *admissible* body
(`QueryCompiler.WhereIsFaithful`). `Objects` says which values a property can hold and which
conditions then hold of it, `Databases` which rows have them: rows with properties and links, a
path leading from row to row. Over bodies whose comparisons are about different properties, none of
them a link that another one navigates, and each true of some stored values and false of others,
admissibility is also necessary (`QueryExactness.WhereIsExact`): for each inadmissible body there
is a row of a database that `where` selects wrongly. Admissible bodies include all bodies over
comparisons that start from an empty query and all bodies built with `&&` alone. `LinkPaths`
follows the pending link chain over any run of navigations and comparisons. `DualMode` compares the
query with the immediate evaluation of the same operators on a live object, with C++'s conversions
and optional ordering on that side: exactly for one comparison and one stored value, and exactly
for whole bodies.

**The libuv scheduler.** `Scheduler` is a transition system whose actions are the atomic steps of
producers, event loop and destructor; its theorems are about every interleaving. `UvScheduler` is
the object, each method a run of that system. `InvocationQueue` runs tasks that push tasks.

**Import and export of object graphs.** `GraphStore` is core's row store, valid after every
single write; `GraphTrees` says which tree a row holds, and `GraphPaths` what is found in trees and
rows along a pointer path. `GraphImport` writes acyclic pointer structures without primary keys,
`KeyedImport` those of classes with primary keys, where shared objects share a row; `KeyedGraphs`
counts the pointer paths in such a structure, `KeyedGrowth` what they add to its lists, and
`KeyedRows` says what the rows show of it. `GraphExport` reads rows back into objects, whatever
order they were written in; `GraphImport.AddThenDetach` and `KeyedRoundTrip.AddThenDetach` say when
the structure comes back.

**Change observers.** `Observer` is the before/after callback wrapper with its optional vectors,
and the property lookup it reads values through, described exactly for any calls at all.

**Ownership.** `Ownership` models generated `managed<cls>` objects, whose properties point into the
enclosing object; `Mixed` models the bridge's `mixed`, which keeps buffers beside a borrowed value.

## Where the code differs from what it says

The model follows the code; each of these is a branch of the model, and a lemma says exactly when
it matters.

- `<` on an enumeration builds `greater`; `== nullptr` on a link reached through a link builds
  `!=`; behind a link `==` on a mixed property looks at a string column and `!= false` builds
  `!= null`; a dictionary-key comparison after a navigation loses the path and leaves it to the next
  comparison; an unsigned operand from 2^63 on is cast to a negative one; a `long double` is
  rounded (`QueryLanguage.Misbuilt`, `QueryExactness.MisbuiltComparison`).
- Direct mixed and link comparisons add to the builder's current query. After a fresh comparison,
  `||` with one of them selects the conjunction in one build and drops the second part in the other
  (`QueryExactness.DirectAfterOr`).
- Evaluated on a live object, `||` computes `&&` (`DualMode.ImmediateConjunction`); `!=` on a link
  ignores its right-hand side, `contains` ignores its case flag, an unsigned operand makes a
  negative integer large, a null optional is less than everything, a `long double` is not rounded
  as the query rounds it, and a mixed value never equals an enumeration or an `int`
  (`DualMode.ComparisonAgreement`).
- The scheduler's destructor, run away from the loop thread, may send on a handle the loop has
  already closed and freed; `Scheduler.DestructorSafety` gives the exact condition.
- A null `T*` does not survive export: the row holding it is read as if it were the target
  (`GraphImport.AddThenDetach`).
- A variant holding an enumeration or an `int` comes back as an `int64_t`, a `const char*` as a
  string (`Mixed.VariantsSurvive`).
- Importing a keyed object leaves the stored link of a null pointer as it was, and appends to its
  lists once for every pointer path that leads to it, so the list of a shared object is stored
  repeated (`KeyedImport.Add`, `KeyedRoundTrip.AddThenDetach`).
- An observer overlooks a deletion seen by `after` when names are stored
  (`Observer.DeletionIsReported`, and `Observer.OverlookedDeletion` for calls that lead there; with
  one change set for both calls it does not happen, `Observer.ObserversAreTold`), and reports an
  empty value for every property declared at or after a collection (`Observer.LookupIsExact`).
- Assigning an object-mode `managed<cls>` to a query-mode one leaves the old builder in its
  properties (`Ownership.AssignmentIsExact`).

## Assumptions

- Core's condition methods and `and_query` update the query they are called on; `operator!` and
  `operator||` return new ones. The empty query selects every row.
- In core a null equals only null and is never less or greater, behind a null link everything is
  null, values of different types are
  unequal, integers are 64-bit, and ignoring case means ignoring it in ASCII letters. The test of a
  mixed operand's truth at `subexpr::mixed_not_equal` fails only for `false` and null.
- Operands are evaluated left to right, and each intermediate `rbool` is used once.
- A mutex excludes, memory is sequentially consistent, and an async send leads to at least one
  later callback, several sends possibly to one. No `invoke` follows the destructor.
- Core numbers new rows upwards and finds a row by class and primary key.
- A `long double` operand comes with its nearest `double`, and no stored `double` is nearer.
- Property names of a class are distinct. A row handle or realm determines the column keys.
- A moved-from string is empty, and so is core's own moved-from binary buffer.

## Model

| member | source | states |
|---|---|---|
| QueryLanguage.EmittedAsWritten | include/cpprealm/rbool.hpp:149-207 | a comparison emits the condition it stands for if and only if it avoids the misbuilding branches |
| QueryCompiler.EntryCell | src/cpprealm/internal/bridge/query.cpp:33-37 | of the cells that existed before a body runs, the builder's one gains exactly the opening accumulating comparison and otherwise stays as it was |
| QueryCompiler.RunInvariant | include/cpprealm/rbool.hpp:251-301 | for any builder state: the result is right unless an unsatisfied start meets an accumulating opening, and then it and the builder left behind are settled by the forcing comparison |
| QueryCompiler.OperandInvariant | include/cpprealm/rbool.hpp:288-301 | the same for `&&` and `\|\|` once the right operand has changed the cell the left one shares |
| QueryCompiler.WhereIsFaithful | include/cpprealm/results.hpp:81-91 | for every well-built admissible body, in both builds, a row of any database satisfies the extracted query exactly when the expression is true of it |
| QueryCompiler.FreshBodiesCompileLiterally | include/cpprealm/rbool.hpp:52-94 | over comparisons that start from an empty query, both builds yield the very tree of the expression, whatever the builder held, and no older cell changes |
| QueryCompiler.ConjunctionsAreAdmissible | include/cpprealm/rbool.hpp:149-195 | bodies built with `&&` alone may mix fresh and accumulating comparisons freely |
| QueryCompiler.SharedAdmissibleIsDeepAdmissible | src/cpprealm/internal/bridge/query.cpp:419-436 | what the aliasing build gets right the copying build gets right too |
| QueryCompiler.BuildsAgree | src/cpprealm/internal/bridge/query.cpp:419-455 | the two storage builds select the same rows for every body admissible under aliasing |
| QueryCompiler.RoutedAsWritten | include/cpprealm/rbool.hpp:199-207 | in a well-built body every comparison gets exactly its own navigations and no chain is left pending |
| QueryExactness.RunIsLocal | include/cpprealm/rbool.hpp:52-94 | rows that agree on the body's conditions and on the start query are not told apart by anything a run leaves behind |
| QueryExactness.BuilderNeedsLast | include/cpprealm/rbool.hpp:153-155 | after a body the builder holds a query that requires its last comparison |
| QueryExactness.DeadOpening | include/cpprealm/rbool.hpp:169-195 | an accumulating opening that cannot hold together with the start query makes the run independent of both |
| QueryExactness.ProbeIsMissed | include/cpprealm/rbool.hpp:149-195 | for every inadmissible body there is a condition that decides the expression and that the compiled query does not react to |
| Objects.EqualitiesAreContingent | include/cpprealm/rbool.hpp:109-147 | an equality comparison is true of some stored value and false of another, unless no stored number can equal its operand, an unsigned one from 2^63 on or a `long double` no `double` equals |
| Objects.Realised | include/cpprealm/rbool.hpp:52-207 | for any choice of truth values for independent comparisons there are values of the compared types with just these |
| Objects.HoldsAsRelated | include/cpprealm/rbool.hpp:109-147 | conditions mean the usual order of numbers, equality of values, occurrence as a part, and occurrence with ASCII letters in any case |
| Databases.Stored | include/cpprealm/link.hpp:95-101 | given values of the compared properties, there is a database with a row of which a body that navigates none of them sees exactly these |
| Databases.SeenIsEnough | include/cpprealm/rbool.hpp:52-107 | the conditions of a body hold of a row as they hold of the values at the ends of its paths, everything behind a null link being null |
| Databases.ReadThroughLink | include/cpprealm/link.hpp:95-101 | a comparison behind a link reads the row the link leads to, and null behind a null link |
| Objects.RowIsLocal | include/cpprealm/rbool.hpp:52-207 | the conditions of a body depend only on the properties it compares |
| QueryExactness.InadmissibleIsExposed | include/cpprealm/results.hpp:81-91 | for every inadmissible body over independent comparisons there is a row of a well-formed database, with no null link on the way to any comparison, that is selected wrongly |
| QueryExactness.WhereIsExact | include/cpprealm/results.hpp:81-91 | over independent comparisons `where` is right on every row of every well-formed database, null links included, if and only if the body is admissible for the build |
| QueryExactness.MisbuiltComparison | include/cpprealm/managed_numeric.hpp:432-437 | a single comparison that some values satisfy and some do not selects the right rows of every database if and only if it is not one of the misbuilt ones, or only rounds a `long double` in an order that no `double` can tell |
| QueryExactness.SelectedAsRelated | include/cpprealm/rbool.hpp:109-147 | a single comparison selects exactly the rows whose value at the end of the path is equal, unequal, above, below or a superstring of the operand, as its operator says |
| QueryExactness.SelectedInstead | include/cpprealm/managed_numeric.hpp:432-437 | what each of the misbuilt comparisons selects instead |
| QueryExactness.DirectOnesAccumulate | include/cpprealm/rbool.hpp:149-195 | the query a comparison returns stands for that comparison alone, whatever the builder held, if and only if it is not a direct one of a mixed property or a link |
| QueryExactness.DirectAfterOr | include/cpprealm/rbool.hpp:149-195 | any comparison that stands for itself `\|\|` a direct mixed or link one selects the conjunction under aliasing and only the first part under copying |
| QueryBuilder.CopyQuery | src/cpprealm/internal/bridge/query.cpp:419-425 | a copy shares the cell in one build and has a cell of its own in the other |
| QueryBuilder.Rbool.Copy | include/cpprealm/rbool.hpp:267-273 | copying an rbool copies the query by the rule of the build and no pending chain |
| QueryBuilder.Rbool.AddLinkChain | include/cpprealm/rbool.hpp:43-50 | a navigation extends the pending chain by its column and changes nothing else |
| QueryBuilder.Rbool.Compare | include/cpprealm/rbool.hpp:52-207 | new cell and content of the builder, final content of the cell it left, remaining chain, and aliasing of the returned copy |
| QueryBuilder.Rbool.Negate | include/cpprealm/rbool.hpp:251-257 | the operand moves to a new cell holding the negation and the copy holds the same |
| QueryBuilder.Rbool.AndQuery | include/cpprealm/rbool.hpp:288-294 | the left operand's cell is updated in place, so everyone sharing it sees the conjunction |
| QueryBuilder.Rbool.OrQuery | include/cpprealm/rbool.hpp:295-301 | the left operand is pointed at a new cell holding the disjunction |
| QueryBuilder.Evaluate | include/cpprealm/rbool.hpp:43-301 | running any body on real aliased cells, from any builder state and pending chain, gives the result, builder, entry cell and chain that the compile function gives, and touches no other existing cell |
| QueryBuilder.Where | include/cpprealm/results.hpp:81-91 | for any body the heap yields the compiled query; for every well-built admissible one it selects exactly the rows the expression is true of |
| LinkPaths.PathDiscipline | include/cpprealm/link.hpp:95-101 | over any run, each condition carries exactly the columns navigated since the previous one if and only if no dictionary-key comparison follows a navigation |
| LinkPaths.PathGiven | include/cpprealm/rbool.hpp:199-207 | of every comparison in a run, which path it gets: none for a dictionary entry, and otherwise all columns navigated since the last comparison that was not of an entry |
| LinkPaths.Replay | include/cpprealm/rbool.hpp:43-107 | on a real builder the runs emit those conditions and leave the chain pending after them |
| DualMode.ComparisonAgreement | include/cpprealm/managed_numeric.hpp:47-93 | for one comparison and one stored value the immediate result equals the compiled one if and only if none of these holds: unsigned operand in an order with the stored value and the cast operand of different sign; `long double` operand whose rounding the stored value shows; null optional with `<` or `<=`; `contains` found only ignoring case; enumeration `<` of unequal values; enumeration or `int` operand that the stored mixed value is equal to; link `!=` an object on a null link or that very object; or the misbuilt comparisons behind a link |
| DualMode.EvaluatedAsRelated | include/cpprealm/managed_numeric.hpp:47-93 | immediate evaluation says what the operator says of the stored value exactly where the value does not stray |
| DualMode.WaveringIsExact | src/cpprealm/managed_primary_key.cpp:49-57 | which well-built comparisons have such a value at all, told from the comparison alone |
| DualMode.ImmediateTruth | include/cpprealm/rbool.hpp:251-301 | on a stored object, as far as no value strays, immediate evaluation is the truth value without `\|\|` and implies it without `!` |
| DualMode.ImmediateConjunction | include/cpprealm/rbool.hpp:295-301 | where no value strays, immediate evaluation computes the body with every `\|\|` read as `&&` |
| DualMode.DualModeAgreement | include/cpprealm/managed_numeric.hpp:162-208 | for every well-built admissible body of any kinds of property, on a row of a database where no value strays: immediate evaluation is the truth of the body with `&&` for `\|\|`, equals satisfaction of that body's query if it is admissible, equals satisfaction of the body's own query without `\|\|`, and implies it without `!` |
| DualMode.LinkInequality | include/cpprealm/link.hpp:169-187 | immediate `!=` on a link agrees with the compiled one if and only if it compares with null or the link is set to another object |
| DualMode.Misjudged | include/cpprealm/rbool.hpp:288-301 | a body with a `\|\|` or a wavering comparison, over independent comparisons, is evaluated wrongly on some values of the compared types |
| DualMode.MisjudgedRow | include/cpprealm/rbool.hpp:288-301 | and on some row of a well-formed database |
| DualMode.ImmediateIsExact | include/cpprealm/rbool.hpp:295-301 | over independent comparisons the two modes agree on every row of every database that can be navigated if and only if the body has no `\|\|` and no wavering comparison |
| Scheduler.StepKeepsOrder | src/cpprealm/schedulers/default_scheduler.cpp:47-63 | every atomic step keeps executed, running and waiting tasks in the order of the locked pushes |
| Scheduler.StepKeepsWakeup | src/cpprealm/schedulers/default_scheduler.cpp:109-113 | every atomic step keeps a wake-up on its way while tasks wait |
| Scheduler.StepKeepsInv | src/cpprealm/schedulers/default_scheduler.cpp:47-113 | every atomic step keeps order and exactly-once, no lost wake-up, no lost close, at most one close and free, and the lifetime rules |
| Scheduler.EveryRunKeepsInv | src/cpprealm/schedulers/default_scheduler.cpp:47-113 | so does every interleaving of producers, loop and destructor |
| Scheduler.ReachableStates | src/cpprealm/schedulers/default_scheduler.cpp:67-87 | all of this holds in every state reachable from a new scheduler |
| Scheduler.NothingRunsAfterClose | src/cpprealm/schedulers/default_scheduler.cpp:74-78 | once the handle is closing no further task runs under any continuation |
| Scheduler.DestructorSafety | src/cpprealm/schedulers/default_scheduler.cpp:89-96 | no continuation sends on a freed handle if and only if the destructor runs on the loop thread or no earlier wake-up is outstanding when it starts |
| Scheduler.LateSends | src/cpprealm/schedulers/default_scheduler.cpp:74-113 | over every run, a send uses a freed handle if and only if it comes after the close callback |
| Scheduler.DeferredCloseCompletes | src/cpprealm/schedulers/default_scheduler.cpp:89-96 | after a completed destructor every run is bounded and can only stop with the handle freed |
| Scheduler.NoTaskIsLost | src/cpprealm/schedulers/default_scheduler.cpp:47-63 | before close, with all wake-ups sent, the loop left alone stops within a bound and only when every accepted task has run, in order |
| UvScheduler.CallbackRun | src/cpprealm/schedulers/default_scheduler.cpp:69-82 | an uninterrupted callback is a run of the transition system that executes exactly the queued tasks |
| UvScheduler.InvokedTasksCanRun | src/cpprealm/schedulers/default_scheduler.cpp:47-63 | whatever threads invoke, one callback later their tasks have run, in order, after those queued before |
| UvScheduler.CanBeDestroyed | src/cpprealm/schedulers/default_scheduler.cpp:74-96 | a scheduler at rest can be destroyed from any thread, and the loop then closes and frees the handle |
| UvScheduler.ProducersNeverWait | src/cpprealm/schedulers/default_scheduler.cpp:109-113 | in every state of a living scheduler, wherever the loop is, a producer can push and send |
| UvScheduler.UvScheduler.Invoke | src/cpprealm/schedulers/default_scheduler.cpp:109-113 | `invoke` is the run push, send |
| UvScheduler.UvScheduler.OnAsync | src/cpprealm/schedulers/default_scheduler.cpp:69-82 | the async callback closes and runs nothing when asked to close, and otherwise runs the whole queue and leaves it empty |
| UvScheduler.UvScheduler.RunBatch | src/cpprealm/schedulers/default_scheduler.cpp:60-62 | the swapped batch is run once each in order |
| UvScheduler.UvScheduler.Destroy | src/cpprealm/schedulers/default_scheduler.cpp:89-96 | the destructor leaves the close flag set, a wake-up pending and the handle open |
| UvScheduler.UvScheduler.OnClosed | src/cpprealm/schedulers/default_scheduler.cpp:75-78 | the close callback frees once |
| InvocationQueue.TickWork | src/cpprealm/schedulers/default_scheduler.cpp:53-63 | one tick runs its snapshot and leaves exactly the tasks it pushed, by count and by identity |
| InvocationQueue.PushedInOrder | src/cpprealm/schedulers/default_scheduler.cpp:53-63 | what a batch pushes is queued task by task in its own order |
| InvocationQueue.RunsAtPosition | src/cpprealm/schedulers/default_scheduler.cpp:53-63 | each task, pushed at any depth, runs at the position its address gives |
| InvocationQueue.BreadthFirst | src/cpprealm/schedulers/default_scheduler.cpp:53-63 | tasks run before all nested deeper, so before those they push, and tasks of one depth in the order in which they were pushed |
| InvocationQueue.RoundsRunEverythingOnce | src/cpprealm/schedulers/default_scheduler.cpp:53-63 | ticking until empty runs every task pushed at any depth exactly once |
| InvocationQueue.HeightOfTick | src/cpprealm/schedulers/default_scheduler.cpp:53-63 | each tick removes one level of nesting |
| InvocationQueue.InvocationQueue.Push | src/cpprealm/schedulers/default_scheduler.cpp:47-51 | a push appends and runs nothing |
| InvocationQueue.InvocationQueue.InvokeAll | src/cpprealm/schedulers/default_scheduler.cpp:53-63 | exactly the snapshot runs, first to last, although tasks push meanwhile, and what they push waits, in the order of the pushes |
| InvocationQueue.InvocationQueue.Drain | src/cpprealm/schedulers/default_scheduler.cpp:53-63 | the queue is empty after as many ticks as the pushes are nested deep, each task having run once, at its position |
| GraphStore.Store.CreateObject | src/cpprealm/internal/bridge/table.cpp:113-115 | a new row with fresh key; all links of the store still lead to rows of the declared class |
| GraphStore.Store.CreateObjectWithPrimaryKey | src/cpprealm/internal/bridge/table.cpp:141-143 | the row that has the key and no change, or one new row and its index entry |
| GraphStore.Store.Write | include/cpprealm/accessors.hpp:439-444 | one cell changes and every stored link still names an existing row of the right class |
| GraphStore.Store.InsertValues | src/cpprealm/internal/bridge/obj.cpp:308-314 | the list holds the new values followed by what it held before |
| GraphPaths.UnfoldShows | include/cpprealm/accessors.hpp:278-319 | the unfolding holds, along every pointer path, the class and the values of the object reached, an entry of a list at its place among the non-null ones |
| GraphPaths.OnlyUnfoldShows | include/cpprealm/accessors.hpp:278-319 | and is the only tree that does |
| GraphPaths.ShapeShows | include/cpprealm/accessors.hpp:278-319 | rows whose tree is the unfolding hold the same, cell by cell, along every pointer path |
| GraphPaths.FullIsNoNull | include/cpprealm/link.hpp:34-45 | a structure's tree can be exported if and only if no object reached has a null `T*` |
| GraphImport.Add | include/cpprealm/db.hpp:88-107 | along every pointer path the rows hold the class and the values of the object reached, cell by cell; every new row is on such a path; one row is created per non-null pointer path; and no row that existed before changes |
| GraphImport.Fill | include/cpprealm/db.hpp:101-105 | writing property after property turns a blank row into the object's tree |
| GraphImport.SetField | include/cpprealm/accessors.hpp:278-286 | one accessor writes one cell of one row, showing the property, and creates the counted new rows only |
| GraphImport.SetLink | include/cpprealm/accessors.hpp:425-452 | the key is stored before the child is filled, and afterwards the link leads to the child's whole tree |
| GraphImport.SetList | include/cpprealm/accessors.hpp:287-319 | the list shows the trees of the non-null entries in order |
| GraphImport.AppendChild | include/cpprealm/accessors.hpp:299-316 | one turn of the loop appends one complete child |
| GraphTrees.ShapeIsStable | include/cpprealm/accessors.hpp:287-319 | a stored tree depends on its own rows only: rows written later do not change it |
| GraphExport.Detach | include/cpprealm/macros.hpp:509-519 | over any acyclic stored rows, in whatever order they were written, detaching an object returns its stored tree if no `T*` in it is null, and otherwise goes astray at the null one |
| GraphExport.DetachCell | include/cpprealm/link.hpp:34-45 | one property detaches to its value or trees, a null `T*` to no target |
| GraphExport.DetachList | include/cpprealm/managed_list.hpp:179-200 | a link list detaches to the trees of its rows, in order |
| GraphTrees.UnfoldIsFull | include/cpprealm/link.hpp:34-45 | structures without null `T*` members unfold to trees that can be detached |
| GraphImport.AddThenDetach | include/cpprealm/db.hpp:88-107 | round trip, on any store and however parts are shared: the tree that comes back holds along every pointer path exactly the values of the object reached, null list entries left out, and it comes back if and only if no `T*` reached is null |
| KeyedGraphs.ReachDescends | include/cpprealm/accessors.hpp:425-452 | filling what lies below an object never returns to the object |
| KeyedImport.Locate | include/cpprealm/db.hpp:94-99 | the row with the object's class and key, created if missing; every existing row is unchanged |
| KeyedImport.StoreLink | include/cpprealm/accessors.hpp:436-439 | the link is set to the found or created row before that row is filled |
| KeyedImport.SetLink | include/cpprealm/accessors.hpp:425-452 | the link leads to the target's row and everything the target reaches is mirrored, while the parent's other cells stay |
| KeyedImport.FillEntry | include/cpprealm/accessors.hpp:293-316 | one turn of the list loop: a null entry is skipped; an entry is found or created, filled, and its key appended after the keys of the entries before it |
| KeyedImport.FillList | include/cpprealm/accessors.hpp:287-319 | writing a list keeps everything already mirrored mirrored and appends the keys of the non-null entries in order to what the list held |
| KeyedImport.Fill | include/cpprealm/accessors.hpp:446-450 | all objects reached are mirrored by their rows, their lists grow by their entries once per pointer path, and no other row changes |
| KeyedImport.FilledNext | include/cpprealm/accessors.hpp:446-450 | one more property keeps everything already mirrored mirrored |
| KeyedImport.ParentUntouched | include/cpprealm/accessors.hpp:425-452 | filling a target leaves the rows of the objects above it alone |
| KeyedRows.StillReflects | include/cpprealm/accessors.hpp:425-452 | a row not written keeps mirroring its object while the store grows |
| KeyedRows.SharedKeysAgree | include/cpprealm/db.hpp:94-97 | two objects of one key can only be mirrored together if they agree in their scalars and targets, which is why keys have to be distinct |
| KeyedGrowth.GrowthFollows | include/cpprealm/accessors.hpp:446-450 | what a link property adds to each list is what importing its target adds: path counts add up |
| KeyedGrowth.GrowthFollowsList | include/cpprealm/accessors.hpp:287-319 | the same for a list property, together with the entries appended to the list itself |
| KeyedImport.Add | include/cpprealm/db.hpp:88-107 | one row per distinct object, its scalars and links mirroring the object, nothing else changed; every list has grown by its entries, once for every pointer path from the root to its object; null pointers are mirrored as well if and only if no earlier row of a reached object links there; on a store with no keyed rows the rows created are exactly as many as the objects reached |
| KeyedRoundTrip.MirroredByAdd | include/cpprealm/db.hpp:88-107 | for objects that were not there before, every cell of every row is determined |
| KeyedRoundTrip.RowsSink | include/cpprealm/db.hpp:88-107 | the rows written are acyclic, links leading to rows of objects further down |
| KeyedRoundTrip.ReadsBack | include/cpprealm/macros.hpp:509-519 | the tree stored for a reached object is the object's own unfolding if, among what it reaches, every object with list entries is reached along one path from the root |
| KeyedRoundTrip.ReadsBackOnly | include/cpprealm/macros.hpp:509-519 | and only if no object with list entries is reached along two paths |
| KeyedRoundTrip.AddThenDetach | include/cpprealm/db.hpp:88-107 | round trip of keyed objects, on a store holding none of them, however parts are shared: what comes back shows the structure along every pointer path if and only if no `T*` reached is null and no object with list entries is reached along two paths |
| Observer.LookupIsExact | include/cpprealm/schema.hpp:243-278 | a named property reads as its live value if and only if no property declared up to and including it is a collection |
| Observer.UnknownIsEmpty | include/cpprealm/schema.hpp:254-275 | an undeclared name reads as empty |
| Observer.ChangedInOrder | include/cpprealm/observation.hpp:88-92 | the properties collected are all those whose column changed, in schema order, without repeats |
| Observer.NamesInOrder | include/cpprealm/observation.hpp:88-92 | the names stored are the names of exactly those properties |
| Observer.ObjectChangeCallbackWrapper.PopulateProperties | include/cpprealm/observation.hpp:73-97 | stored names win over everything, then a deletion, then the changed names |
| Observer.ObjectChangeCallbackWrapper.ReadValues | include/cpprealm/observation.hpp:99-115 | one value per stored name, or none |
| Observer.ObjectChangeCallbackWrapper.Before | include/cpprealm/observation.hpp:117-119 | the old values are replaced, nothing is reported |
| Observer.ObjectChangeCallbackWrapper.After | include/cpprealm/observation.hpp:121-134 | the next state and the at most one notice |
| Observer.ObjectChangeCallbackWrapper.ForwardChange | include/cpprealm/observation.hpp:140-172 | old and new values are paired with their names by position, all indices in range |
| Observer.DeletionIsReported | include/cpprealm/observation.hpp:73-80 | `after` reports deletion if and only if it was seen earlier, or the change set shows it and no names are stored |
| Observer.OverlookedDeletion | include/cpprealm/observation.hpp:73-80 | a `before` and an `after` with different change sets miss a deletion if and only if the first one names a changed property; observers are then told of a change |
| Observer.EveryRunStaysAligned | include/cpprealm/observation.hpp:73-173 | over every sequence of calls the stored vectors stay aligned, there is at most one notice per `after` or `error`, and no notice is an empty change |
| Observer.DeletionIsFinal | include/cpprealm/observation.hpp:121-134 | once a deletion is seen, every later `after` says so and nothing else |
| Observer.OneTransaction | include/cpprealm/observation.hpp:117-134 | one before/after pair reports, for each changed property in schema order, name, old value and new value |
| Observer.ObserversAreTold | include/cpprealm/observation.hpp:73-173 | over any sequence of transactions the wrapper says exactly what a stateless description of each transaction says |
| Observer.WrapperIsDescribed | include/cpprealm/observation.hpp:73-173 | over any calls whatever, in any order and with any change sets, each `after` reports what a description of the calls since the last one says: which look names the properties, which gives old values, and when there are none |
| Ownership.Managed.Refresh | include/cpprealm/macros.hpp:426-438 | every property is prepared for the query or assigned to the row of its own object |
| Ownership.Managed.FromRow | include/cpprealm/macros.hpp:412-421 | properties point at the new object's own row and realm |
| Ownership.Managed.Copy | include/cpprealm/macros.hpp:422-439 | a copy takes the handles and points its own properties at itself |
| Ownership.Managed.Move | include/cpprealm/macros.hpp:459-476 | the same for a move, and what it leaves behind |
| Ownership.Managed.Assign | include/cpprealm/macros.hpp:440-458 | the same for assignment, keeping in each property what the source keeps; self-assignment included |
| Ownership.Managed.MoveAssign | include/cpprealm/macros.hpp:477-495 | the same for move assignment; self-move included |
| Ownership.Managed.ForQuery | include/cpprealm/macros.hpp:496-508 | a query object whose properties share the builder and have no row |
| Ownership.AssignmentMatches | include/cpprealm/macros.hpp:440-458 | what an assignment makes of an object in any mode from a source in any mode, its pointers and the builder in its properties |
| Ownership.AssignmentIsExact | include/cpprealm/macros.hpp:440-458 | an assignment keeps the self-pointer invariant if and only if it does not go from an object-mode source to a query-mode target |
| Ownership.PointersStayHome | include/cpprealm/macros.hpp:412-508 | after any sequence of constructions, copies, moves and assignments no inner pointer leads into another object; the properties have a row exactly if the object ever was in object mode, and share its builder if and only if it is in query mode or never was |
| Ownership.EveryObjectDescends | include/cpprealm/macros.hpp:412-508 | over the same sequences every object has the row, realm and builder of the construction it descends from, by copies, moves and assignments at any remove, its properties the column keys these give; a moved-out object has lost its realm, and its row in one build |
| Mixed.StepHolds | src/cpprealm/internal/bridge/mixed.cpp:26-91 | each copy, move and assignment keeps every live variable convertible to its value |
| Mixed.LiveValuesSurvive | src/cpprealm/internal/bridge/mixed.cpp:26-91 | so does every sequence of them, in both builds |
| Mixed.AfterMove | src/cpprealm/internal/bridge/mixed.cpp:59-73 | what a moved-from variable reads as in each build, and that this is its old value if and only if core values are copied and its buffer was empty or unused |
| Mixed.VariantsSurvive | include/cpprealm/types.hpp:280-351 | a serialized variant value, copied, moved and assigned about in any way, deserializes to itself if and only if it is neither an enumeration nor an `int` nor a `const char*`, and those to an `int64_t` and a string |
| Mixed.OtherTypesReturn | include/cpprealm/types.hpp:319-351 | a float comes back as a double, a link not at all |
| Mixed.MixedValue.Copy | src/cpprealm/internal/bridge/mixed.cpp:26-40 | the buffer in use is copied with the core value |
| Mixed.MixedValue.Assign | src/cpprealm/internal/bridge/mixed.cpp:42-57 | the same for assignment, self-assignment changing nothing |
| Mixed.MixedValue.MoveFrom | src/cpprealm/internal/bridge/mixed.cpp:59-91 | a move takes buffer and core value and states what it leaves |

## Left out

- `dictionary_link_subexpr`: comparisons reached through a dictionary value link rest on core code that is not part of this model.
- `truepredicate` and `falsepredicate`: they never touch the builder, and core's behaviour on a negated empty query is not visible.
- An `rbool` named and used more than once: its cell would be changed twice.
- `==` on a mixed property behind a link really casts a string column; the model gives it a condition on a text column of its own, so it says that the comparison is not the one written, not what core then does.
- `QueryExactness.WhereIsExact`: stated for bodies whose comparisons are about different properties, none of them a link that another comparison navigates, and can each be true and false, because otherwise a wrong tree can be equivalent by accident (`m != null || m == 5`, or `link->x == 5 && (n == 1 || link == nullptr)`); the faithful direction has no such restriction. `DualMode.ImmediateIsExact` likewise.
- `Databases.WellFormed`: types the properties of each row; that two rows of one class have the same properties is not stated.
- `QueryExactness.MisbuiltComparison`: says that some stored row is selected wrongly, except for a comparison every or no stored value satisfies.
- `DualMode.DualModeAgreement`: NaN is not modelled, nor a dictionary without the key or a navigation through a null link, where immediate evaluation throws.
- Link comparisons take the row that is handed to the builder; when the operand is itself a link property that is the row holding it, in both modes.
- `Scheduler.DeferredCloseCompletes`: says that the loop can stop only after the close and after boundedly many steps; that the loop keeps running is the event loop's business.
- `GraphExport.Detach`: what the export makes of the row it wrongly reads at a null `T*`; where that row has the same class it does not end.
- Embedded objects: for null entries of an embedded list the code inserts at positions that need not exist.
- Cyclic pointer structures: importing them without primary keys does not terminate.
- `KeyedImport.Add`: no lists of primitives, whose writers in core append to what a row found again holds, precede it or replace it; no two objects with one key, of which the last one written wins; and no structures that mix classes with a key, one row per object, and without, one row per path.
- `KeyedRoundTrip.AddThenDetach`: objects none of which is stored yet; on rows found again, `KeyedImport.Add` says what changes.
- `std::set` and `std::map` accessors: the same loops over other containers.
- `GraphStore.Store.InsertValues`: the list writers that append, or hand the whole vector to core, are modelled by the same contract on a blank row.
- `Observer`: values of a row already removed; core throws when they are read.
- `collection_callback_wrapper` and `results_callback_wrapper`: a flag each.
- `serialize` and `deserialize` of single values, which convert to a wrapper type and back; `Mixed.VariantsSurvive` is about variants.
- `Ownership`: destruction, and schemas with no properties in `Ownership.PointersStayHome`.
- The `uv_scheduler` constructor's failure to open its handle: an exception before any state exists.
- Sync, login, networking, BSON, and the wrappers of value types: delegation.
