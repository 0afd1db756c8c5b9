# llemon-swap verification

A Dafny model of the parts of llemon-swap that decide which models run, who is
served next and what a reader is told, with proofs of what they promise. Code that
updates fields or walks slices is a class or a method with loops, proved against a
specification over values; what the specification guarantees is proved as lemmas
over every input, every run or every interleaving.

| files | component |
|---|---|
| `Names`, `BitMask`, `Frontier`, `MatrixProgram`, `MatrixSolver`, `MatrixCompile`, `MatrixMeaning`, `Topology`, `Dsl` | the matrix solver, its compiler and its expression language |
| `FifoSpec`, `FifoInvariant`, `FifoOrder`, `FifoRuns`, `FifoQueue`, `FifoFairness`, `FifoPromotion`, `FifoScenes`, `FifoForgotten`, `FifoAnswers`, `FifoOutcomes`, `FifoDecisions`, `Fifo` | the FIFO scheduler and the router's grants as an event machine, and as the handlers that implement it |
| `Inflight`, `InflightTracker` | replication of the in-flight request list to a reader |
| `ProviderSpec`, `ProviderRuns`, `ProviderReports`, `LateVictims`, `UnloadLeases`, `ProviderManager` | the provider lifecycle manager: leases, demand, displaced defaults, restoration |
| `FifoLeases`, `LeaseCoupling` | the router and a provider manager together, joined by the lease calls |
| `LifecyclePlanner`, `GroupPlanner` | eviction planners and the spillover check |
| `ProcessSpec`, `ProcessRuns`, `ProcessLoop` | the run loop of one upstream process |
| `EventGroup`, `EventRegistry` | the event dispatcher |
| `Macros` | macro expansion of untyped configuration values |
| `LogBuffer` | the circular log buffer |

Reading guide. A `...Spec` file holds the state, the steps or events, and nothing
else; a `...Runs` file proves the invariant of every reachable state and ends with
the guarantees; the file with the class proves that the code, statement by
statement, performs exactly those steps. What the steps mean is said once more from
outside, in terms of the inputs alone (`MatrixMeaning`, `FifoAnswers`, `FifoOutcomes`,
`FifoDecisions`, `ProviderReports`), so that no step is only compared with itself. Where several goroutines meet
(`Inflight`, `ProviderSpec`, `EventGroup`) a step is one atomic region of the code
and a run is any interleaving of them. What the program is told from outside (what
a planner, a provider, a process or a waiting caller answers, health reports, time)
is an arbitrary parameter of an event or a step.

Some guarantees hold only under a condition, and the model says which. Where a
comment of the code promises more, the model follows the code:

- The in-flight reader converges unless the snapshot flag is still up. That is so
  exactly when the last raise of the flag came after the last test of it
  (`QuietReaderConverged`), and it can last with everything quiet, whatever the size
  of the outbox: a publisher may drain it and leave between the moment a sender finds
  it full and the moment that sender raises the flag (`RecoveryCanStall`), although
  the comment at `internal/server/inflight.go:180-182` has every dropped update made
  up for. Where no send finds the outbox full, the reader has converged whenever
  everything is quiet (`RoomyReaderConverged`).
- A fairness promotion is announced for the oldest cold request
  (`internal/router/scheduler/fifo.go:575-577`) but moves the first queued one. Events
  reorder the queue only where they drain it, after they have removed swaps and dropped
  requests, so promotions are judged in the state handed to the drain (`DrainsThere`).
  In every drain of every run the oldest is the one moved if and only if the pool's
  configuration leaves it no other way (`PromotedIsOldestExactlyWhen`): no fairness
  bound is set; or the pool has a single model and, besides, has no bound on waiting, or
  that model takes one request at a time, or no other resident-first pool has models
  both below and not below it in priority. For every other configuration there is a run
  in which a younger request is moved; it needs two models more, of any pools, and one
  eviction planner that stops running models only.
- The single macro pass is full recursive expansion exactly when no macro that
  prints as nothing is declared after one that is not a string
  (`PassIsFullExactlyWhenSound`). The comments of the code state no such condition.
- A restoration reloads what was recorded when it captured the record. What it drops
  from the record without having reloaded it are exactly the models displaced after
  that and not captured (`ForgottenExactly`); `LateVictimIsForgotten` is a run in
  which there is one, its restoration started by the idle timer of a returned lease.
- A load of a model that the provider has just reported as ready fails, and marks the
  model as failed, when a lease is granted between that report and the look at the
  model's state, which then reads busy (`LoadEndsExactly`; `LeaseFailsLoad` is a run in
  which that happens).
- An ordinary unload meets at the provider exactly the leases granted since its own
  check and not returned (`UnloadFindsWhatWasGranted`; `UnloadMayFindALease` is a run
  with one), so it relies on its caller. The scheduler is such a caller: while a swap
  is active, no model it stops has a lease with the provider
  (`StoppedModelsAreUnleased`, and `NorDuringATurn` in the middle of the router's
  turns). A swap whose target is unloaded is forgotten while it still runs, and the
  models it stops lose that protection: one of them may be served at once exactly when
  it is not being swapped in itself, has a slot left, and no swap started by the same
  unload stops it (`ServedDespiteForgottenSwap`; `ForgottenSwapServes` is a run in which
  one is).

## Model

| member | source | states |
|---|---|---|
| Frontier.EvaluateStandsFor | internal/matrix/program.go:413-480 | for every expression and set of relevant models, the frontier is sound (each choice is the projection of its witness, a denoted set), complete (every denoted set's projection is below a choice) and an antichain |
| MatrixProgram.DecideIsOptimal | internal/matrix/program.go:222-288 | for a target not running: if a denoted set contains it, the decision names such a set, evicts exactly the running models outside it, reports the sum of their prices (the listed cost, or one), and no denoted set containing the target leaves out running models with a smaller sum; otherwise all running are evicted at cost 0 |
| MatrixProgram.DearerIsSpared | internal/matrix/program.go:248-338 | where a denoted set with the target leaves out only one running model, a model that costs more than it is not evicted |
| MatrixProgram.RunningTargetStays | internal/matrix/program.go:222-230 | a target that runs already evicts nothing, whatever runs beside it, and is given the first set that denotes all that runs, if there is one |
| MatrixProgram.LeftOutExact | internal/matrix/program.go:248-287 | the evicted list holds exactly the running models outside the chosen set, repetitions kept |
| MatrixProgram.LeftOutInOrder | internal/matrix/program.go:275-280 | and it keeps running order |
| MatrixProgram.CoexistingTargetsEvictNothing | internal/matrix/program.go:222-310 | models that share one denoted set never evict one another when costs are positive |
| MatrixSolver.Evaluator.States | internal/matrix/program.go:383-462 | memoised evaluation over masks represents the frontier of the expression, whatever was evaluated before |
| MatrixSolver.AddState | internal/matrix/program.go:464-480 | filtering the slice in place over masks is dominance pruning over sets of models |
| MatrixSolver.FlattenWitness | internal/matrix/program.go:482-500 | the sorted, duplicate-free names of a witness |
| MatrixSolver.AllowsOnFrontier | internal/matrix/program.go:291-331 | one denoted set contains all models iff some frontier choice keeps them all |
| MatrixSolver.SupportsAll | internal/matrix/program.go:176-184 | the support prefilter tests exactly whether every model occurs in the expression |
| MatrixSolver.UnsupportedIsNotAllowed | internal/matrix/program.go:173-184 | a set the prefilter skips could not have contained the models |
| MatrixSolver.FindAllowing | internal/matrix/program.go:312-331 | the first set of the program that contains all models, prefilter and bit numbers notwithstanding |
| MatrixSolver.CanContainAll | internal/matrix/program.go:291-310 | true iff one denoted set contains all models, or there are none |
| MatrixSolver.Solve | internal/matrix/program.go:222-288 | returns the specified decision |
| MatrixSolver.MatrixSwapper.SolveCached | internal/router/matrix.go:69-89 | the one-entry cache returns the decision the solver would return, and remembers it |
| MatrixSolver.MatrixSwapper.EvictionFor | internal/router/matrix.go:91-93 | the evictions are those of that decision |
| BitMask.SubsetOf | internal/matrix/program.go:355-362 | word by word, one mask is within the other |
| BitMask.UnionMask | internal/matrix/program.go:364-370 | the mask of both |
| BitMask.FullMask | internal/matrix/program.go:405-411 | the mask of the first count bits |
| Topology.TopologicalOrder | internal/matrix/program.go:186-217 | succeeds iff the references have no cycle, and then lists every name exactly once with its dependencies before it |
| Topology.Sorter.Visit | internal/matrix/program.go:187-209 | one depth-first visit extends a partial order or exhibits a cycle through open names |
| Topology.OrderedIsAcyclic | internal/matrix/program.go:186-217 | an order with dependencies first rules out every cycle |
| MatrixCompile.Compile | internal/matrix/program.go:45-121 | fails exactly on no definitions, on the first definition that does not parse or resolve, or on circular references; otherwise gives one linked set per name, references first |
| MatrixMeaning.CompiledMeans | internal/matrix/program.go:45-121 | every set of a compiled program denotes exactly the model sets that the text of its definition, the last under its name, describes: names stand for the models they resolve to, references for what the named sets denote, AND unites and OR chooses |
| MatrixMeaning.ProblemsAreReal | internal/matrix/program.go:65-87 | an expression is refused iff a name in it resolves to nothing or a reference names no set, and what is reported is such a one |
| MatrixMeaning.FirstErrorIsFirst | internal/matrix/program.go:58-93 | what is reported is the first definition that does not parse or names something unknown, and that it does; nothing iff there is none |
| MatrixCompile.LinkSets | internal/matrix/program.go:88-107 | following the order, every reference is linked to the root of an earlier set |
| MatrixCompile.ComputeSupport | internal/matrix/program.go:126-171 | numbers all models and gives each set the mask of the models it can mention |
| Dsl.ParsesExactlyTheGrammar | internal/matrix/dsl.go:137-198 | the parser accepts exactly the or/and/atom grammar, `&` binding tighter, with the tree the grammar gives |
| Dsl.ParsedIsProper | internal/matrix/dsl.go:137-198 | every tree it returns is one that can be written down again |
| Dsl.PrintParses | internal/matrix/dsl.go:137-198 | the written tokens of any such tree parse to the same tree |
| Dsl.TextRoundTrip | internal/matrix/dsl.go:42-120 | the same through text: tokenizing and parsing the written form gives the tree back |
| Dsl.Tokenize | internal/matrix/dsl.go:42-89 | the loop computes the token list, or the first error, of the specification |
| Dsl.WordIsToken | internal/matrix/dsl.go:42-89 | letters, digits, underscores, hyphens and dots make one name, and after a plus sign one reference |
| Dsl.SignsAreTokens | internal/matrix/dsl.go:42-89 | the four signs, a plus sign without a name, and any other character refused |
| Dsl.Parser.OrExpr | internal/matrix/dsl.go:137-156 | the advancing parser consumes and returns what the grammar function does |
| Dsl.Parser.AndExpr | internal/matrix/dsl.go:158-177 | likewise for conjunctions |
| Dsl.Parser.Atom | internal/matrix/dsl.go:179-198 | likewise for names, references and parentheses |
| Dsl.ParseDSL | internal/matrix/dsl.go:100-120 | the whole parse, empty and trailing input included |
| FifoRuns.EventKeepsInvariant | internal/router/scheduler/fifo.go:115-296 | every event keeps the invariant, whatever planner, processes and callers answer |
| FifoRuns.RunsKeepInvariant | internal/router/scheduler/fifo.go:115-296 | every legal run stays within it |
| FifoRuns.SwapsNeverStopBusyModels | internal/router/scheduler/fifo.go:669-710 | active swaps are pairwise compatible; no model they stop has a request in flight, a running handler or a lease; no handler was granted for a model being stopped |
| FifoRuns.LeasesAreHandlers | internal/router/base.go:192-289 | between events the leases held on a model are its running handlers, if it has leases at all, and its requests in flight are these and the handlers that have yet to report; so leases never exceed requests in flight |
| FifoRuns.SlotsAreConserved | internal/router/scheduler/fifo.go:335-387 | reserved slots are requests in flight plus queued plus swap-waiting, within the limit, and the panic on release is unreachable |
| FifoRuns.RequestsAreConserved | internal/router/scheduler/fifo.go:115-333 | each admitted request is in exactly one of queue, swap of its model, or closed by one answer |
| FifoRuns.QueuedMeansBusy | internal/router/scheduler/fifo.go:437-483 | no lost wake-up: a non-empty queue means an active swap or a request in flight |
| FifoOrder.FairOrderIsFair | internal/router/scheduler/fifo.go:575-625 | the drain order permutes the queue, fixes requests of other pools in place, keeps residents and cold requests each in order, residents first unless a bound promotes the first cold one |
| FifoOrder.OldestColdIsOldest | internal/router/scheduler/fifo.go:552-565 | the request found is the oldest cold one of the pool, first in queue among equals |
| FifoScenes.PromotedIsOldestExactlyWhen | internal/router/scheduler/fifo.go:575-623 | for every resident-first pool: some drain of some run promotes a cold request that has not waited longest iff the pool has a bound and two models, or a bound on waiting and a model that may queue twice and whose priority another resident-first pool straddles |
| FifoScenes.SharedMisplaces | internal/router/scheduler/fifo.go:512-623 | such a run for any two models of a bounded pool, at the burst bound or the waiting bound, given any two models more: one planner answers throughout and stops only running models, and an idle model's unload drains the queue |
| FifoScenes.OvertakableMisplaces | internal/router/scheduler/fifo.go:414-435 | such a run for a single model, likewise: a reordering of the other pool lets a later request for it be placed before an earlier one |
| FifoPromotion.GoodConfigurations | internal/router/scheduler/fifo.go:575-623 | in all other configurations every promotion, in the drain of every event after every run, moves the request that waited longest |
| FifoQueue.DrainsThere | internal/router/scheduler/fifo.go:213-296 | every event that reorders the queue drains it in the named state, and goes on as that drain leaves it; any other only adds its own request in its place, or removes it |
| FifoPromotion.LoneByAge | internal/router/scheduler/fifo.go:414-435 | the requests of a pool's only model stay queued by age, with nothing of lower priority before them, if no other resident-first pool straddles its priority |
| FifoOrder.FairOrderPermutes | internal/router/scheduler/fifo.go:575-625 | nothing is lost or doubled by reordering |
| FifoFairness.QueueStaysSorted | internal/router/scheduler/fifo.go:414-435 | with no resident-first pool the queue is always by priority, then arrival |
| FifoFairness.OvertakingIsBounded | internal/router/scheduler/fifo.go:512-544 | between two swap starts of a resident-first pool with a positive burst limit, at most that many new requests are served past a queued cold one |
| Fifo.CollidesWith | internal/router/scheduler/fifo.go:669-688 | in any map order, whether a swap would clash with an active one |
| Fifo.SlicesOverlap | internal/router/scheduler/fifo.go:690-698 | whether two lists share an element |
| Fifo.ConflictsWithInFlight | internal/router/scheduler/fifo.go:700-710 | whether an evicted model still has requests in flight |
| Fifo.Scheduler.RunningModels | internal/router/scheduler/fifo.go:627-667 | the sorted list of running processes and other swaps' targets |
| Fifo.Scheduler.FindOldestCold | internal/router/scheduler/fifo.go:552-573 | the cold request of the pool that waited longest |
| Fifo.Scheduler.ShouldYieldToCold | internal/router/scheduler/fifo.go:512-531 | whether a fairness bound holds a resident request back |
| Fifo.Scheduler.ReorderOnePool | internal/router/scheduler/fifo.go:588-623 | writing residents and cold requests back through the collected indexes refills exactly the pool's places |
| Fifo.Scheduler.FairlyOrdered | internal/router/scheduler/fifo.go:578-625 | the loops over sorted pool names compute the specified order |
| Fifo.Scheduler.GrantServe | internal/router/base.go:192-219 | a handler runs more, under a lease if the model has leases, iff the caller received it; a refused lease is answered with an error, and a lease whose handler nobody received is given back |
| Fifo.Scheduler.GrantHandler | internal/router/scheduler/fifo.go:310-326 | one request more is in flight exactly when one handler more runs, and the slot is given back otherwise |
| Fifo.Scheduler.TrackedServeReturns | internal/router/base.go:276-289 | a returning handler gives its lease back, its request staying in flight until it reports |
| FifoRuns.ReturnKeeps | internal/router/base.go:276-289 | that keeps the invariant |
| FifoForgotten.ServedDespiteForgottenSwap | internal/router/scheduler/fifo.go:247-296 | after any run, when an unload drops an active swap that was stopping a model, a new request for that model may be served at once, whatever its process, the planner and its caller answer, iff no swap for it is active, it has a slot left, and no swap started by that unload's drain stops it |
| FifoForgotten.ForgottenSwapServes | internal/router/scheduler/fifo.go:256-269 | a run for any two models in which a handler of one runs while the swap that stops it, unreported, is no longer known |
| FifoLeases.EventFollows | internal/router/base.go:200-218 | in every event the leases are what the lease calls add up to, and nobody asks for a lease on a model that a continuing swap is stopping |
| LeaseCoupling.RunsAgree | internal/provider/registry.go:459-495 | in every interleaving with the provider's own steps, the provider counts for each of its models exactly the leases the router holds |
| LeaseCoupling.StoppedModelsAreUnleased | internal/provider/registry.go:376-399 | while a swap is active the provider has no lease on a model it stops, so an unload for it finds none, neither at its check nor at its call |
| LeaseCoupling.NorDuringATurn | internal/provider/registry.go:376-399 | nor after any of the provider's steps in the middle of a turn that does not end the swap |
| Fifo.Scheduler.Enqueue | internal/router/scheduler/fifo.go:414-435 | inserts just before the first lower priority |
| Fifo.Scheduler.DrainQueue | internal/router/scheduler/fifo.go:437-483 | decides every queued request again, in fair order, against the swaps so far |
| Fifo.Scheduler.OnRequest | internal/router/scheduler/fifo.go:96-168 | the decision tree performs the request event |
| Fifo.Scheduler.OnCancel | internal/router/scheduler/fifo.go:170-211 | pruning the queue and every active swap changes only the request's own places |
| Fifo.Scheduler.OnSwapDone | internal/router/scheduler/fifo.go:213-233 | answers every waiter, then drains |
| FifoOutcomes.SwapDoneTells | internal/router/scheduler/fifo.go:213-233 | in every run, when a swap is done each waiter is told exactly one thing before the queue is looked at: after a failure that it failed, and never a handler; after a success its handler, if it takes it and is lent a lease where it needs one, and never an error; a failed swap puts nothing in flight, a good one exactly those handed a handler |
| FifoOutcomes.CancelTells | internal/router/scheduler/fifo.go:170-211 | a cancelled request is gone from the queue and every swap, and noted if it was there; all others stay, in their order |
| FifoOutcomes.UnloadTells | internal/router/scheduler/fifo.go:247-296 | after an unload no swap is under way and nobody is queued for an unloaded model, and whoever waited was told so |
| FifoAnswers.EffectsAreJustified | internal/router/scheduler/fifo.go:96-483 | every effect of every event has its reason: a handler only for a caller that takes it, under a lease where there are leases, on a model whose process is ready or whose swap has just succeeded for this waiter; each error only to those it is about; a swap only for a request, with exactly what the planner answers for the processes that run and the swaps under way |
| FifoAnswers.EffectsHaveCauses | internal/router/scheduler/fifo.go:96-483 | so in every run each effect was brought about by one of its turns for such a reason |
| FifoDecisions.AdmittedRequestIs | internal/router/scheduler/fifo.go:96-168 | a request within its model's limit joins the swap under way for its model; is queued iff serving it would clash with another swap or stop a model with requests in flight, or its model is ready and its pool holds residents back for a cold request; is offered its handler iff its model is ready with nobody to stop; and otherwise starts a swap; with its place in the queue and the pool's count of overtaking residents |
| FifoDecisions.DrainOrderIs | internal/router/scheduler/fifo.go:575-625 | in a resident-first pool with a cold request waiting a drain takes residents first, then cold requests, each in queue order, and ahead of all the first cold one iff the pool is held back |
| FifoDecisions.RemainsOnlyWhenBlocked | internal/router/scheduler/fifo.go:437-483 | whoever a drain leaves queued is, at its end, in the way of a swap under way or of requests in flight, by what the planner answered for it |
| Fifo.Scheduler.OnServeDone | internal/router/scheduler/fifo.go:235-245 | counts down, releases, and drains when the model is idle |
| Fifo.Scheduler.OnUnload | internal/router/scheduler/fifo.go:247-296 | errors waiters, in whatever order the target set is walked, and queued requests of the targets, then drains |
| Fifo.Scheduler.Handle | internal/router/scheduler/fifo.go:96-296 | any enabled event performs its specified step and keeps the invariant |
| Inflight.SettledReaderConverged | internal/server/inflight.go:85-251 | under every interleaving, with an empty outbox, nothing under way and no snapshot due, the reader holds exactly the tracker's requests, byte counts of armed entries excepted |
| Inflight.QuietReaderConverged | internal/server/inflight.go:192-214 | when every publisher has returned the outbox is empty, a snapshot is still due exactly when the last raise of the flag came after the last test of it, and otherwise the reader has converged |
| Inflight.FlagStaysUpExactlyWhen | internal/server/inflight.go:183-221 | in every reachable state the flag is up exactly when its last raise was not followed by a test |
| Inflight.RoomyReaderConverged | internal/server/inflight.go:183-221 | a run in which no send found the outbox full has converged whenever everything is quiet |
| Inflight.ConvergedIsEqual | ui-svelte/src/stores/api.ts:171-196 | with no byte update due, convergence is equality of the two lists |
| Inflight.FlagRaisedTooLate | internal/server/inflight.go:183-221 | from any state where a publisher tests the flag before the sender raises it, both publishers can leave with the flag up |
| Inflight.RecoveryCanStall | internal/server/inflight.go:183-221 | so for every size of the outbox there is a run after which a dropped update stays unpublished with everything quiet |
| Inflight.StepKeepsInvariant | internal/server/inflight.go:85-251 | each atomic step keeps: what is published, on its way and being sent amounts to the tracker's requests, unless a recovery is due |
| InflightTracker.Tracker.Add | internal/server/inflight.go:85-108 | a new entry under a fresh id, its update sent or a snapshot due |
| InflightTracker.Tracker.Remove | internal/server/inflight.go:110-121 | the entry goes and its removal is sent or a snapshot due; unknown ids change nothing |
| InflightTracker.Tracker.SetResponseHeaders | internal/server/inflight.go:123-135 | replaces the headers and sends the entry |
| InflightTracker.Tracker.AddResponseBytes | internal/server/inflight.go:137-165 | adds to the count, and sends now, or arms the delayed update |
| InflightTracker.Tracker.EmitPending | internal/server/inflight.go:167-178 | the delayed update disarms and sends the entry |
| InflightTracker.Tracker.EnqueueLocked | internal/server/inflight.go:180-196 | queued if there is room, flag otherwise, and a publisher runs |
| InflightTracker.Tracker.PublishUpdates | internal/server/inflight.go:198-221 | beside other goroutines' calls between its atomic actions: a publisher returns only with the outbox empty or another publisher running, and if none runs and no snapshot is due the reader has converged; undisturbed it brings a due snapshot if the outbox held anything, and otherwise publishes nothing |
| InflightTracker.Tracker.DiscardQueuedUpdates | internal/server/inflight.go:223-231 | empties the outbox |
| InflightTracker.Tracker.CurrentEntries | internal/server/inflight.go:244-265 | copies every tracked entry |
| ProviderRuns.DrainingIsExclusive | internal/provider/registry.go:516-564 | in every interleaving a busy model has a lease; restoration unloads its transient only without leases; none is granted from the final draining mark until the call returns |
| ProviderRuns.ClearedAfterReloading | internal/provider/registry.go:566-632 | the displaced record is cleared by a restoration only after every model it held at the start was reloaded and kept |
| ProviderRuns.RecordsAreKept | internal/provider/registry.go:252-289 | otherwise a record only grows, except in a global unload; it lists distinct preferred models by priority and name |
| ProviderRuns.SwapRecords | internal/provider/registry.go:252-289 | a swap adds exactly the preferred victims not yet recorded |
| ProviderRuns.StepKeepsInvariant | internal/provider/registry.go:291-659 | each locked region keeps the invariant |
| LateVictims.ForgottenExactly | internal/provider/registry.go:516-632 | in every run, a restoration about to finish has reloaded exactly what it captured, and drops unreloaded exactly the preferred models that swaps displaced since the capture and that were not captured; nothing is lost iff there are none |
| LateVictims.LateVictimIsForgotten | internal/provider/registry.go:476-632 | a run from the start in which there is one, for any transient whose pool restores and any two preferred models: the transient is loaded, leased and given back, and its idle timer starts the restoration |
| UnloadLeases.UnloadFindsWhatWasGranted | internal/provider/registry.go:365-399 | in every run, an ordinary unload that calls the provider meets exactly the leases granted since its check less those returned, so none iff all are back; while the call is out none is granted |
| UnloadLeases.UnleasedWhenGuarded | internal/provider/registry.go:365-399 | if nobody asks for a lease between the check and the call, it meets none |
| UnloadLeases.UnloadMayFindALease | internal/provider/registry.go:376-399 | a run from the start in which it meets one |
| ProviderManager.Manager.Acquire | internal/provider/registry.go:459-474 | grants a lease iff the model is ready or busy, and makes it busy |
| ProviderManager.Manager.Release | internal/provider/registry.go:476-495 | gives a lease back; the last one makes the model ready and arms restoration if it is due |
| ProviderManager.Manager.BeginSwap | internal/provider/registry.go:252-289 | extends and sorts the target's record |
| ProviderManager.Manager.Observe | internal/provider/registry.go:763-793 | a health report fixes the state of every configured model |
| ProviderManager.Manager.ReconcileLocked | internal/provider/registry.go:735-806 | the operation goes on with the reported states, or as after a failure |
| ProviderManager.Manager.Load | internal/provider/registry.go:291-363 | beside any other goroutines: a load that succeeds or finds nothing to do ended on a report that lists the model as ready, and owns it in the first case; one that fails leaves it failed; it is refused only if external or for want of room; no record is lost, and the demand it raised stands until it takes it back |
| ProviderReports.LoadEndsExactly | internal/provider/registry.go:341-363 | in every interleaving, a load the provider carried out succeeds iff the report after it lists the model as ready and nobody took a lease on it since; otherwise the model ends as failed |
| ProviderReports.LeaseFailsLoad | internal/provider/registry.go:351-355 | a run in which a lease granted after that report makes the load of a ready model fail |
| ProviderReports.LoadGoesOnExactly | internal/provider/registry.go:312-337 | a load goes to the provider iff its model is not listed as ready and unleased, is not external, and one LLM more fits by the fresh report |
| ProviderReports.CallsAreAllowed | internal/provider/registry.go:321-605 | in every interleaving the provider is asked to load, by a load or a restoration, only where one LLM more fits by the last report, by a restoration at most three times, and to unload one model only if not known unloaded and, if external, owned |
| ProviderReports.ObservedMeans | internal/provider/registry.go:763-790 | which state each reported status means: not listed is unloaded, the last entry decides, ready becomes busy under a lease |
| ProviderReports.LeaseRoundTrip | internal/provider/registry.go:459-495 | a lease is granted iff the model is ready or busy; given back it restores count and state, and the idle timer is armed iff it was the last, on a transient with displaced models in a pool that restores |
| ProviderReports.RecordsAreInOrder | internal/provider/registry.go:252-289 | in every run a record lists distinct preferred models, the smaller priority number first, then the earlier name |
| ProviderReports.SwapNotesPins | internal/provider/registry.go:252-289 | what a swap records of a displaced model is whether the last report's first entry of it says pinned |
| ProviderReports.WantedTransientComesFirst | internal/provider/registry.go:525-659 | wherever a restoration looks at demand for its transient and finds some, it reloads and keeps nothing more and goes to bring the transient back |
| ProviderReports.RestorationCanFinish | internal/provider/registry.go:566-632 | a restoration without demand can always be carried to its end, with every displaced model owned |
| ProviderManager.Manager.Unload | internal/provider/registry.go:365-415 | likewise, an unloaded model is not owned and reads unloaded |
| ProviderManager.Manager.UnloadAll | internal/provider/registry.go:417-457 | everything reads unloaded and no record is left |
| ProviderManager.Manager.Restore | internal/provider/registry.go:516-634 | beside any other goroutines: success means every model recorded at the start was reloaded and is owned, the transient reads unloaded and the record is gone; stopping short keeps the record |
| ProviderManager.Manager.ResumeDemanded | internal/provider/registry.go:636-659 | new demand ends the restoration with the transient ready, or failed if the provider would not load it |
| LifecyclePlanner.EvictionFor | internal/router/provider.go:51-122 | keeps the policy's evictions, and what it adds are the least wanted of the pool's evictable occupants |
| LifecyclePlanner.AddsLeastWanted | internal/router/provider.go:86-121 | what is added are distinct occupants, never hard-pinned or external; a preferred one only when every evictable transient goes too; and of equal residency none is spared with a larger priority number, or with the same number and a later name |
| LifecyclePlanner.AddsExactlyAsMany | internal/router/provider.go:68-121 | as many as are missing before one LLM more fits, counted in the report, or none when none is missing or not so many may go |
| LifecyclePlanner.WhoOccupies | internal/provider/registry.go:210-235 | who occupies a pool: its configured models that are neither unloaded nor failed and that the report lists as LLMs |
| LifecyclePlanner.RoomAfterwards | internal/provider/registry.go:321-337 | with only the evicted models gone, loading the target passes its occupancy test whenever there were enough candidates |
| LifecyclePlanner.ResidentLlmAliases | internal/provider/registry.go:210-235 | the pool's models that occupy LLM capacity, sorted |
| ProviderManager.CountLlms | internal/provider/registry.go:237-250 | counts every LLM of the report, configured or not |
| GroupPlanner.EvictionFor | internal/router/group.go:76-110 | the stopped models in running order, each once |
| GroupPlanner.StoppedExactly | internal/router/group.go:65-110 | said of the groups alone: stopped are exactly the running models other than the target that are in its group, if that swaps, or outside it, if it is exclusive and they are in no persistent group; each once |
| GroupPlanner.IndexMembers | internal/router/group.go:22-31 | indexes exactly the members of groups |
| GroupPlanner.ValidateSpilloverCoexistence | internal/config/selectors.go:120-153 | accepts exactly targets sharing one matrix set, or one group that does not swap |
| GroupPlanner.AcceptedGroupsEvictNothing | internal/config/selectors.go:133-152 | accepted targets stop nothing under the group planner, whichever of them run |
| GroupPlanner.AcceptedSetsEvictNothing | internal/config/selectors.go:125-131 | nor under the matrix planner, with positive costs |
| GroupPlanner.RejectedSetsCollide | internal/config/selectors.go:125-131 | targets rejected under the matrix do collide once all but one of them run |
| ProcessRuns.SelectIsSettled | internal/process/process_command.go:132-402 | back at its select the loop is stopped or ready, ready iff command, done channel and handler of one process are installed; who may wait when; no other process alive |
| ProcessRuns.AnsweredExactlyOnce | internal/process/process_command.go:162-182 | every accepted request is answered exactly once, waiting, or cut short, and nobody waits once the loop returned |
| ProcessRuns.OnlyShutdownCutsShort | internal/process/process_command.go:349-366 | only a shutdown during its own start leaves a request unanswered |
| ProcessRuns.AnswersAreTrue | internal/process/process_command.go:230-400 | "ready" is said only while ready, "done" to Run and Stop only when stopped |
| ProcessRuns.EventKeepsInvariant | internal/process/process_command.go:184-401 | each turn of the select keeps the invariant |
| ProcessLoop.Loop.NotifyReadyWaiters | internal/process/process_command.go:162-174 | every subscriber gets the answer and none stays |
| ProcessLoop.Loop.ParentIsDone | internal/process/process_command.go:186-204 | everybody who waited is told of the shutdown, subscribers first; nobody waits and nothing runs any more |
| ProcessLoop.Loop.UpstreamHasExited | internal/process/process_command.go:206-225 | everybody who waited is told of the exit, subscribers first; nobody waits and nothing runs any more |
| ProcessLoop.Loop.WaitForReady | internal/process/process_command.go:227-238 | one answer at once while ready or shut down, and subscribed without one otherwise |
| ProcessLoop.Loop.Start | internal/process/process_command.go:240-373 | who is told what, in which order, in every case: answered from the state, refused, up, failed, cut by a stop or by a shutdown; and what state, process and parked caller it leaves |
| ProcessRuns.StartTells | internal/process/process_command.go:240-373 | the same of the start's event, whatever the state it finds |
| ProcessLoop.Loop.StopProcess | internal/process/process_command.go:375-400 | nothing runs any more; subscribers are told only if something was torn down, then the parked Run caller, then the stop itself |
| ProcessLoop.Loop.Turn | internal/process/process_command.go:184-401 | one turn performs its event and keeps the invariant |
| EventGroup.DeliveredInOrder | internal/event/event.go:182-298 | for every interleaving, delivered, pending and queued events of a consumer are exactly those broadcast while it was subscribed, in order, no queue over the limit |
| EventGroup.StepKeepsInvariant | internal/event/event.go:182-298 | each locked region or delivery keeps that |
| EventGroup.Group.TryBroadcast | internal/event/event.go:230-266 | appends to exactly the subscribers' queues when each has room, and otherwise waits unchanged |
| EventGroup.Group.NewConsumer | internal/event/event.go:268-282 | a new consumer with nothing queued |
| EventGroup.Group.Del | internal/event/event.go:284-298 | stops and unsubscribes the consumer, the others stay in order |
| EventGroup.Group.Listen | internal/event/event.go:188-223 | one turn of a listener, beside any steps of other goroutines between two events: it hands over exactly what was queued, in order, and ends only when stopped and empty |
| EventRegistry.Registry.Find | internal/event/event.go:72-92 | the binary search finds a group iff the loaded arrays list the type |
| EventRegistry.Dispatcher.FindGroup | internal/event/event.go:72-92 | a group is found iff the type was ever subscribed to |
| EventRegistry.Dispatcher.SubscribeTo | internal/event/event.go:101-152 | the types ever subscribed to gain this one, other types keep their groups, keys stay strictly sorted, published arrays are untouched |
| EventRegistry.InsertExtends | internal/event/event.go:123-143 | inserting at the sorted place keeps keys sorted and groups in step |
| EventRegistry.Dispatcher.Publish | internal/event/event.go:154-161 | goes to the type's group, or nowhere when the type was never subscribed to |
| Macros.PassIsFullExactlyWhenSound | internal/config/macros.go:259-264 | the single pass equals full recursive expansion for all values iff no macro printing as nothing follows one that is not a string |
| Macros.PassIsFullExpansion | internal/config/macros.go:415-452 | under that condition, at any depth of nesting |
| Macros.PassIsExpansion | internal/config/macros.go:259-264 | and when macros refer only to earlier ones, it equals the expansion in which every placeholder stands for its macro's expanded value over the whole list, in no particular order |
| Macros.ErasingParts | internal/config/macros.go:415-430 | otherwise two placeholders side by side turn a string into a number or boolean |
| Macros.NoListedPlaceholderLeft | internal/config/macros.go:259-264 | when values refer only to earlier macros, no listed placeholder is left |
| Macros.PassKeepsShape | internal/config/macros.go:432-446 | map keys and shapes stay, each part expanded in place |
| Macros.ExactPlaceholderKeepsType | internal/config/macros.go:421-425 | a value that is exactly one placeholder takes its macro's type |
| Macros.SubstituteMacroList | internal/config/macros.go:259-264 | the loop from last to first is the specified pass |
| Macros.MergeModelMacros | internal/config/macros.go:238-257 | the loops compute the merged list |
| Macros.MergedIsEffective | internal/config/macros.go:238-257 | model id first, globals in place with the model's overrides, then the model's own in the order it declares them, names distinct |
| Macros.PartTakesText | internal/config/macros.go:421-430 | inside other text a placeholder gives way to its macro as it prints |
| Macros.KeyPassIsFullText | internal/config/macros.go:276-288 | for keys, text for text, the pass is always full expansion |
| Macros.SubstituteSetParamsByIdKeys | internal/config/macros.go:266-290 | renames every key to its expansion with its own value, or fails exactly when two become the same |
| LogBuffer.CircularBuffer.Write | internal/logmon/logging.go:41-69 | keeps the latest bytes of everything written, wrapped or oversize |
| LogBuffer.CircularBuffer.GetHistory | internal/logmon/logging.go:71-90 | exactly the last min(total, capacity) bytes |
| LogBuffer.WriteAll | internal/logmon/logging.go:27-90 | after any writes of any lengths, the end of their concatenation |

## Left out

Matrix:

- BitMask: a word is the set of positions of its one bits rather than a 64-bit number; unions, differences and bit tests are taken as set operations.
- The evaluator's memo is keyed by the value of a node, not by its pointer, and the reuse of a slice's backing array while filtering it is not visible.
- Trimming of white space and the positions in parse errors; the unused fields of decisions that only feed log lines.
- Which of several equally cheap sets is chosen: the frontier's own order decides, as in the code, and nothing is claimed about it.

Scheduler:

- OnShutdown and everything after it; telemetry (queue positions, queue deltas, promotions) and logging.
- The sorted running list is handed to the planner as a set, since it is a function of one.
- A handler returns between two events; its lease could go back in the middle of one, which nothing in the scheduler reads.
- LeaseCoupling: the provider's own note of a starting swap may come at any moment of a run, not only with that start; and for a swap that starts in the middle of a turn, the rest of that turn is not covered by `NorDuringATurn`.
- A process state is fixed for the length of one event; unloading leaves its swap goroutine to itself, so invariants speak of the scheduler's own maps.

In-flight list:

- The elapsed time of an entry, the order of the list (recomputed by sender and reader from timestamps and ids), header redaction, and the request's cancel function.
- InflightTracker.Tracker.PublishUpdates: other goroutines' calls happen whole between its actions, and no other publisher acts meanwhile; finer interleavings and several publishers are covered by the steps of `Inflight`.
- Readers that subscribe late and get their first snapshot outside the publisher's order.

Provider:

- HTTP calls, discovery, corrections and durations; a call succeeds or fails arbitrarily, a health report is arbitrary.
- Real time: an armed idle timer may fire at any moment, and a restoration begins only once its timer fired, or can no longer be stopped; retry delays are gaps in which anything may happen.
- Capacity bounds through the branch that brings a demanded transient back: the code checks none there.

Process loop:

- Spawning, signals, health polling and the idle-time unloader: a start succeeds, fails or comes up late, and a kill returns when the process is gone.
- Callers that stop listening; their channel still takes the one answer.

Elsewhere:

- Event types are keys of one registry with groups of one element type; the panic on conflicting types and on a closed dispatcher.
- Macros: characters that only together with inserted text spell a placeholder; YAML, comment stripping, environment macros, port allocation and the final check for unknown macros.
- Spillover selectors before their targets are resolved, and the provider capacity laid over either planner.
- Subscription to log data, HTTP handlers, proxying, authentication, configuration files, persistence and the web interface apart from the fold of updates.
