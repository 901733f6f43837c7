# Verification of the agent runtime's cores

Dafny models of the parts of this repository where state, order and aliasing decide correctness, with proofs.
Every model is a set of functions on immutable states, about which the theorems are stated, and, where the program
updates objects or loops over local state, classes and methods proved to compute exactly those functions.

`dafny verify dfyconfig.toml` checks the whole project.

## Parts

- **Abort graph** (`Abort*.dfy`). Controllers and node records are heap objects; listeners are closures held by
  controllers and run synchronously, once, in order (sections 3.1 and 3.2 of the WHATWG DOM Standard). Two mechanisms
  abort a subtree: the recursive listener cascade and the breadth-first mop-up. They are proved to agree with one
  description that mentions neither.
- **Background jobs** (`Job*.dfy`, `BackgroundRegistry.dfy`). The registry as atomic steps between awaits, with each
  job's trace and pipeline calls recorded, over every interleaving, and what each record says about the run.
- **Background summarizer** (`Summarizer*.dfy`, `BackgroundSummarizer.dfy`). The call budget under overlapping ticks,
  failures, retries and stops; how soon a job is refreshed again, which text is kept, and silence after a stop.
- **Size ratchet and baseline merge** (`Ratchet*.dfy`, `SizeRatchet.dfy`, `BaselineMerge.dfy`). The baseline file is a
  field. Histories, agreement of update and check, and the merge as a least upper bound.
- **Signing form** (`Canonical*.dfy`, `JsonReader.dfy`). Sorted JSON text over UTF-16 code units (sections 10.1.11.1 and
  25.5.2 of ECMA-262), a reader of compact JSON text (RFC 8259) to judge it by, and the NUL-joined inputs.
- **Redirect resolver** (`Redirect*.dfy`), **event-log turns** (`Event*.dfy`), **read duplication**
  (`ReadDedup*.dfy`), **worker pool** (`PoolModel.dfy`, `WorkerPool.dfy`).

`register` and `rearm` take any controller; that they keep the graph sound only under a condition is an
if-and-only-if. Assumptions, written as preconditions: a measurement lists each key once; wildcard redirects shorten the
path; the summarizer's interval is positive; for silence after a stop, ticks come from the timer.

## What the proofs found

Where the code is weaker than its comments or than one would expect, the model follows the code.

- `isCascading` is documented as false for a node that fired its own abort; an ancestor's later `abort` marks it all
  the same, because the search marks every registered descendant (`AbortRuns.MarkedLaterExactly`,
  `AbortWitness.OwnAbortBecomesCascading`).
- A controller that was replaced by `rearm`, or whose node was disposed, still aborts a child relinked under the same
  parent id (`AbortTheorems.StaleFire`, `AbortWitness.StaleControllerKills`).
- `dispose` tests the parent id for truthiness, so the edge from a parent registered under the empty string is never
  cut (`AbortForest.DisposeForest`, `AbortWitness.EmptyParentKeepsEdge`).
- In `abort` without a reason, a node that is below the root only through child sets does not get the root's AbortError
  but that of the first node in search order that takes it along (`AbortReasons.AbortErrorOf`,
  `AbortReasons.WhoseError`, `AbortReasons.OneReasonExactly`, `AbortWitness.TwoParentsTwoReasons`).
- The summarizer's retry charge ignores the cap; twice the cap is the bound that holds, and it is reached for every
  cap (`SummarizerBudget.BudgetHolds`, `SummarizerBudget.CapBoundsCallsExactly`,
  `SummarizerBudget.TwiceTheCapIsReached`). A refresh in flight can bring back a settled job's summary
  (`SummarizerBudget.SummaryReturns`, `SummarizerBudget.SettledSummaryReturns`).
- The size check reports growth below the limit that an update does not look at (`RatchetTheorems.CheckCanBeStricter`).
  An update drops a permanent entry whose file fits the limit, with its hand-written reason, although the check accepts
  it (`RatchetTheorems.DropsUnreported`).
- A job the model cancelled keeps the model's reason in its terminal record when the user or a cascade cancels it
  afterwards, with the later source (`JobRuns.TerminalRecordNames`).
- A tool name that holds a bar can put different calls into one group (`ReadDedupCalls.KeysMeet`,
  `ReadDedupCalls.GroupsArePairs`).
- The merged limit does not associate over two absent versions, and negative sizes are raised to zero
  (`BaselineMerge.LimitAssociates`, `BaselineMerge.UnionIdempotent`); which type-check reason survives depends on
  grouping (`BaselineMerge.TypecheckReasonAssociates`).
- An object member named `__proto__` does not reach the signed text (`CanonicalTheorems.ProtoIsForgotten`).
- When an id is reused before its first use was answered, that record stays unanswered for good, and a result behind
  another answer becomes an orphan beside it (`EventLog.GoesToLatestOpenExactly`).
- With tied sequence numbers the cross-agent count can depend on the order of calls (`ReadDedup.OrderFreeExactly`).
- The pool resolves without calling items that follow as many undefined ones as it has workers
  (`PoolModel.ItemRunsExactly`).
- A NUL inside an id makes a signed input ambiguous, and nothing else does (`CanonicalTheorems.ResponseDetermines`,
  `CanonicalTheorems.AbortDetermines`).

## Model

| member | source | states |
|---|---|---|
| `AbortRuns.RunSound` | src/agent/abort-graph.ts:43-263 | After any sequence of register and rearm (with a usable controller, rearm under its guard), linkChild, subscribe, unsubscribe, abort, direct controller aborts and dispose, every node whose recorded parent is aborted is itself aborted, and the graph satisfies the linking invariant |
| `AbortTheorems.SoundIsClosed` | src/agent/abort-graph.ts:121-174 | The linking invariant (a linked child is aborted, or its live parent's current controller carries the cascade closure for it) implies abort closure |
| `AbortTheorems.AbortExact` | src/agent/abort-graph.ts:197-244 | `abort(id, reason)` on a live root: exactly the root and the registered ids reachable through child sets become aborted, exactly those reachable ids become cascading, no other node field changes, and the root carries the caller's reason |
| `AbortRuns.MarkedLaterExactly` | src/agent/abort-graph.ts:102-113 | Over every operation: an aborted node that is not cascading becomes so if and only if `abort` is called on a live node above it |
| `AbortWitness.OwnAbortBecomesCascading` | src/agent/abort-graph.ts:102-113 | A run: a child aborts itself and is not cascading; its parent aborts later and the child is cascading |
| `AbortTheorems.AbortTouchesOnly` | src/agent/abort-graph.ts:237-243 | No controller changes except those of the root and its live descendants; each of those loses its listeners and gets the caller's reason, or an AbortError when none was given (whose, is said by `AbortReasons.AbortErrorOf`) |
| `AbortReasons.AbortErrorOf` | src/agent/abort-graph.ts:237-243 | `abort(id)` without a reason: a live node ends up with the root's AbortError if and only if it is the root or hangs below it by recorded parent links |
| `AbortReasons.WhoseError` | src/agent/abort-graph.ts:209-243 | `abort(id)` without a reason: every live node it reaches gets the AbortError of the first node, in the order root and then search result, that is the node itself or has it below by recorded parent links |
| `AbortReasons.OneReasonExactly` | src/agent/abort-graph.ts:186-244 | All nodes an abort reaches get the same reason if and only if the caller gave one or every live node below the root hangs on it by recorded parent links |
| `AbortWitness.TwoParentsTwoReasons` | src/agent/abort-graph.ts:121-243 | A run that reaches the other case: a child linked under two parents, the first aborted without a reason; the parent carries its own AbortError and the child its own |
| `AbortTheorems.AbortRecords` | src/agent/abort-graph.ts:202-235 | The abort record lists the reachable registered ids, each once, with the caller's reason |
| `AbortTheorems.AbortAnnounces` | src/agent/abort-graph.ts:151-173 | An abort notifies only the listeners of the root's recorded parent, once for every notification closure made for that parent, and nobody when the root is its own descendant |
| `AbortTheorems.AbortSound` | src/agent/abort-graph.ts:197-244 | `abort` keeps the linking invariant on every graph, cyclic or not |
| `AbortTheorems.DirectExact` | src/agent/abort-graph.ts:138-149 | Aborting a live node's controller directly aborts exactly the nodes below it along recorded parent links |
| `AbortTheorems.DirectTouchesOnly` | src/agent/abort-graph.ts:138-149 | A direct abort changes only controllers of registered nodes on such links, all with the one reason |
| `AbortLinks.DirectNodes` | src/agent/abort-graph.ts:102-149 | A direct abort marks exactly the live nodes below the fired one as cascading and never the fired one, so `isCascading` tells an inherited abort from an own one; no other node field changes |
| `AbortTheorems.DirectSound` | src/agent/abort-graph.ts:138-173 | A direct abort of any controller the graph has ever held, current or not, keeps the linking invariant |
| `AbortTheorems.StaleFire` | src/agent/abort-graph.ts:76-81 | Aborting a live controller that no registered node uses any more is harmless to all others if and only if every cascade closure it carries is spent: its child gone, re-parented or already aborted |
| `AbortWitness.StaleControllerKills` | src/agent/abort-graph.ts:138-149 | A run: parent and child linked, the parent disposed, registered again and linked again; aborting the first controller kills the child and not the parent |
| `AbortReach.BfsExact` | src/agent/abort-graph.ts:209-221 | `cascadedTo` has no duplicates and is exactly the set of registered ids reachable from the root's children, on every link graph |
| `AbortReach.RoundProgress` | src/agent/abort-graph.ts:212-221 | Each round of the search keeps the final list and either visits a new registered id or shortens the queue, so the search ends on cycles, shared children and stale ids |
| `AbortCascade.FireCompletes` | src/agent/abort-graph.ts:138-149 | A synchronous cascade leaves no live child under a controller it aborted: every cascade closure that still holds has had its effect when the outermost abort returns |
| `AbortCascade.FireWithin` | src/agent/abort-graph.ts:138-149 | A cascade stays in every region that is closed under the cascade closures, and gives every controller it aborts the same reason |
| `AbortNotice.FireOwes` | src/agent/abort-graph.ts:151-173 | Aborting a live node's controller sends exactly what is owed to its recorded parent; the rest of the cascade notifies nobody |
| `AbortRuns.RegisterSound` | src/agent/abort-graph.ts:60-68 | Registering a new id, with any controller, keeps the invariant if and only if no other node uses the controller and every closure it carries was made for that id; a known id changes nothing |
| `AbortRuns.RegisterNodes` | src/agent/abort-graph.ts:60-68 | A new node is unlinked, unmarked and has no listeners; every other node and signal stays as it was |
| `AbortRuns.RearmSound` | src/agent/abort-graph.ts:70-81 | `rearm`, with any controller, keeps the invariant if and only if the controller is usable for the node and the guard holds: linked children are aborted or already carried by the new controller, and the node is a root, gets an aborted controller, or its live parent's controller carries the closure for it |
| `AbortRuns.RearmNodes` | src/agent/abort-graph.ts:70-81 | `rearm` replaces the node's controller and clears its mark, and changes no other field and no other node |
| `AbortRuns.RearmLosesChild` | src/agent/abort-graph.ts:76-81 | Rearming over a live linked child and then aborting leaves that child alive under an aborted parent |
| `AbortRuns.EdgeKeeps` | src/agent/abort-graph.ts:127-128 | linkChild records the edge on both sides and changes no other link |
| `AbortRuns.LinkSound` | src/agent/abort-graph.ts:121-174 | linkChild keeps the invariant, whether the parent is live or already aborted |
| `AbortLinks.LinkUnderDeadExact` | src/agent/abort-graph.ts:127-136 | linkChild of a live child under a dead parent: exactly the child and the live nodes below it by recorded parent links are aborted, every one with the parent's reason; exactly these become cascading; the edge is recorded; nobody is notified |
| `AbortLinks.LinkTouchesOnly` | src/agent/abort-graph.ts:130-136 | Every controller it changes was live, belongs to such a node, loses its listeners and gets the parent's reason |
| `AbortLinks.LinkQuietly` | src/agent/abort-graph.ts:127-151 | In every other case linkChild aborts, marks and notifies nobody: the edge is recorded, and under a live parent the two closures are added behind the others |
| `AbortRuns.DisposeNodes` | src/agent/abort-graph.ts:250-262 | What dispose leaves of every other node: recorded children become orphans, the edge from a non-empty parent id is cut, nothing else changes |
| `AbortRuns.DisposeSound` | src/agent/abort-graph.ts:246-262 | dispose keeps the invariant |
| `AbortForest.NewEdgeAcyclic` | src/agent/abort-graph.ts:127-128 | One new link closes no cycle unless the parent is the child or lies below it |
| `AbortForest.LinkForest` | src/agent/abort-graph.ts:121-128 | Linking keeps child sets and recorded parents in agreement and the graph a forest if and only if the child is parentless or already hangs on this parent, and the parent is neither the child nor below it |
| `AbortForest.DisposeForest` | src/agent/abort-graph.ts:253-261 | dispose keeps the forest if and only if the node's parent id is not the empty string, whose edge is never cut |
| `AbortWitness.EmptyParentKeepsEdge` | src/agent/abort-graph.ts:253-256 | A run: a child disposed under a parent registered as the empty string stays in that parent's child set |
| `AbortForest.RunNeat` | src/agent/abort-graph.ts:60-262 | After any disciplined run (children linked only while parentless, never twice under one parent id, never into their own subtree) the graph is a forest and every live linked node carries exactly one notification closure |
| `AbortForest.AbortNotifiesOnce` | src/agent/abort-graph.ts:186-244 | In such a graph, aborting a live node calls each listener of its live parent exactly once with the node's reason, and nobody else |
| `AbortForest.DirectNotifiesOnce` | src/agent/abort-graph.ts:151-173 | The same for a direct abort of the node's controller |
| `AbortListeners.RunSingle` | src/agent/abort-graph.ts:177-184 | In every run no record, registered or disposed, lists a listener twice |
| `AbortListeners.Subscribed` | src/agent/abort-graph.ts:177-180 | After subscribing, exactly the old listeners and the new one listen, the old ones first; nothing else changes |
| `AbortListeners.Unsubscribed` | src/agent/abort-graph.ts:181-183 | After unsubscribing, exactly the other listeners of that record listen; nothing else changes |
| `AbortListeners.UnsubscribeUndoes` | src/agent/abort-graph.ts:177-184 | Unsubscribing a listener that was new restores the graph |
| `AbortListeners.SubscriberHears` | src/agent/abort-graph.ts:151-184 | Subscribe, then abort a live child of the node in a graph of a disciplined run: the subscriber is called exactly once |
| `AbortListeners.FormerSubscriberIsSilent` | src/agent/abort-graph.ts:151-184 | Unsubscribe, then abort a live child: the former subscriber is not called |
| `AbortGraphClass.AbortGraph.constructor` | src/agent/abort-graph.ts:43-49 | A new graph is empty and sound |
| `AbortGraphClass.AbortGraph.Register` | src/agent/abort-graph.ts:60-68 | For any controller: the heap update is the register function of the state, and the graph is sound afterwards exactly when the id was known or the controller is usable for it |
| `AbortGraphClass.AbortGraph.Rearm` | src/agent/abort-graph.ts:76-81 | For any controller: fails for an unregistered id without a change; otherwise replaces the controller and clears the mark, and the graph is sound afterwards exactly when the controller is usable and the guard holds |
| `AbortGraphClass.AbortGraph.LinkChild` | src/agent/abort-graph.ts:121-174 | Which error it reports; a live child under a dead parent aborts at once with the parent's reason and is marked, and in every other case no reason changes; the heap update is the link function of the state |
| `AbortGraphClass.AbortGraph.FireController` | src/agent/abort-graph.ts:138-173 | The recursive listener cascade over heap objects computes the fire function of the state and terminates |
| `AbortGraphClass.AbortGraph.CollectDescendants` | src/agent/abort-graph.ts:209-221 | The queue loop marks and lists exactly what the search function gives |
| `AbortGraphClass.AbortGraph.Abort` | src/agent/abort-graph.ts:197-244 | Mark, record, fire and mop up over heap objects: sound afterwards, exactly root and reachable ids newly aborted, and no effect for unknown or aborted ids |
| `AbortGraphClass.AbortGraph.AbortDirectly` | src/agent/abort-graph.ts:138-173 | A controller aborted by its owner: the fire function of the state, sound afterwards |
| `AbortGraphClass.AbortGraph.OnChildAborted` | src/agent/abort-graph.ts:177-184 | Adds the listener once, or fails for an unregistered id |
| `AbortGraphClass.AbortGraph.Unsubscribe` | src/agent/abort-graph.ts:181-183 | Removes the listener from the record it was added to, even after the id was disposed |
| `AbortGraphClass.AbortGraph.Dispose` | src/agent/abort-graph.ts:250-262 | The heap update is the dispose function of the state, and the graph stays sound |
| `AbortGraphClass.AbortGraph.IsCascading` | src/agent/abort-graph.ts:111-113 | Between operations a cascading node is always aborted |
| `AbortGraphClass.AbortGraph.ChildrenOf` | src/agent/abort-graph.ts:96-100 | Every registered node that records id as its parent is listed |
| `SummarizerBudget.RunBalanced` | src/agent/background-summarizer.ts:134-150 | Under every interleaving of overlapping ticks, calls, failures, retries, starts and stops: the call counter is attempts plus retries plus outstanding reservations, and every first call in flight still owns at most one retry |
| `SummarizerBudget.BudgetHolds` | src/agent/background-summarizer.ts:191-301 | In every run initial attempts never exceed the cap, retries never exceed attempts, and model calls never exceed the counter, which never exceeds twice the cap |
| `SummarizerBudget.CapBoundsCallsExactly` | src/agent/background-summarizer.ts:147 | The cap bounds the model calls of every run if and only if there are no retries or the cap allows no call |
| `SummarizerBudget.TwiceTheCapIsReached` | src/agent/background-summarizer.ts:134-150 | For every cap there is a run with exactly twice as many model calls, so the bound is tight |
| `SummarizerBudget.ReserveTakesFirstDue` | src/agent/background-summarizer.ts:195-219 | A tick reserves for the first due jobs in order, as many as the budget has room for |
| `SummarizerBudget.LaunchAllBalanced` | src/agent/background-summarizer.ts:223-300 | A tick leaves no reservation behind: each is spent or given back before the first await |
| `SummarizerBudget.SummaryReturns` | src/agent/background-summarizer.ts:159-164 | A job without a summary gets one in a step if and only if a refresh of it that was in flight returns: so a settled job's summary can come back |
| `SummarizerBudget.SettledSummaryReturns` | src/agent/background-summarizer.ts:159-164 | A run: a job is due, settles while its call is in flight, the call returns, and the settled job has a summary |
| `SummarizerRuns.RefreshGap` | src/agent/background-summarizer.ts:195-208 | In every run, two consecutive attempts for a job that does not settle in between lie at least the interval less one second and the job's jitter apart, the jitter staying the same until the job is registered again |
| `SummarizerRuns.TickRefreshesExactly` | src/agent/background-summarizer.ts:191-224 | A tick starts an attempt for exactly the jobs with a non-blank transcript among the first due ones the budget allows |
| `SummarizerRuns.DueMeans` | src/agent/background-summarizer.ts:199-208 | A job is due when its last refresh is an interval old, less one second and its jitter, which is below the interval |
| `SummarizerRuns.IndexIsOrder` | src/agent/background-summarizer.ts:155-158 | In every run, the index of a registered job that has not settled is the number of registrations before its own, so its jitter is three seconds for each of them, modulo the interval |
| `SummarizerRuns.StepText` | src/agent/background-summarizer.ts:275-291 | What one step does to a job's summary: a returned call replaces it by a fresh one, the end of the job removes it, a call that failed for good makes it stale unless stopped; text and age change in no other way |
| `SummarizerRuns.SummaryIsLastReturn` | src/agent/background-summarizer.ts:159-280 | In every run, a job has a summary if and only if a call for it has returned and it has not settled since; it holds the text of the last such call and the time its attempt began |
| `SummarizerRuns.StopSilences` | src/agent/background-summarizer.ts:167-181 | In every run whose ticks come from the timer: while stopped, no event before the next start makes a model call or charges the budget, whatever is still pending |
| `BackgroundSummarizerClass.BackgroundSummarizer.Tick` | src/agent/background-summarizer.ts:191-224 | The reservation loop and the launches over the object's fields compute the tick function and keep the accounting |
| `BackgroundSummarizerClass.BackgroundSummarizer.ReserveSlots` | src/agent/background-summarizer.ts:196-219 | The loop computes the reservation function |
| `BackgroundSummarizerClass.BackgroundSummarizer.RefreshJob` | src/agent/background-summarizer.ts:226-300 | The part of a refresh before its first await: gives the reservation back (after a throwing transcript read it also marks the old summary stale while the signal is live), or spends it |
| `BackgroundSummarizerClass.BackgroundSummarizer.OnReturned` | src/agent/background-summarizer.ts:275-280 | A returned call stores a fresh summary, whether or not the job has settled |
| `BackgroundSummarizerClass.BackgroundSummarizer.OnCallFailed` | src/agent/background-summarizer.ts:145-149 | A transient first failure charges one retry without a look at the cap; any other failure marks the old summary stale unless stopped |
| `BackgroundSummarizerClass.BackgroundSummarizer.OnBackoffEnded` | src/agent/background-summarizer.ts:281-301 | The retry calls the model, or fails when the signal was aborted during the backoff |
| `BackgroundSummarizerClass.BackgroundSummarizer.OnSettled` | src/agent/background-summarizer.ts:159-164 | Drops summary, index and timestamp of the job and keeps the accounting |
| `JobModel.StatusFromResult` | src/agent/background-registry.mark-terminal.ts:49-55 | A result never leaves a job running; only success completes it and only cancellation cancels it |
| `JobProofs.RunsAreLawful` | src/agent/background-registry.mark-terminal.ts:80-221 | For every interleaving, a job's trace is started, at most one terminal record, then only joined and delivered records of that same status; its pipeline calls are a prefix of settle, teardown, cleanup, release |
| `JobProofs.RunsAreSafe` | src/agent/background-registry.ts:363-441 | For every interleaving: the running jobs respect the cap, running jobs are listed and not due for eviction, slots held equal promoted jobs not yet released, and the summarizer's index is exactly the running jobs it saw start |
| `JobProofs.PipelineOnce` | src/agent/background-registry.mark-terminal.ts:80-221 | However many callbacks arrive, each pipeline call is made at most once and in order, and the slot is released exactly when the pipeline has finished |
| `JobProofs.PipelineReleases` | src/agent/background-registry.mark-terminal.ts:190-220 | Whether teardown, cleanup and onSettled return or throw: once a result arrived, every call is made, the slot is released, and exactly the errors thrown are logged, in order |
| `JobProofs.StepSound` | src/agent/background-registry.ts:255-671 | Every atomic step keeps the registry invariant |
| `JobProofs.RunKeepsResults` | src/agent/background-registry.ts:651-671 | No entry is ever overwritten: over any run a job's trace and calls only grow, and a terminal status and its result never change |
| `JobProofs.JoinsAgree` | src/agent/background-registry.ts:459-479 | Any two joins of a job, at any two points of a run, yield the same stored result |
| `JobProofs.MakeIdInjective` | src/agent/background-registry.ts:609-611 | Ids with different counters differ whatever the clock said |
| `JobProofs.NewIdIsNew` | src/agent/background-registry.ts:374 | A new job's id is not the id of any job ever created |
| `JobProofs.EvictKeepsRunning` | src/agent/background-registry.mark-terminal.ts:183-188 | An eviction timer never drops a running job |
| `JobProofs.ModelCannotCancel` | src/agent/background-registry.ts:519-526 | A job the model does not own is untouched by a model cancel, and ownership defaults to the user |
| `JobRuns.TerminalRecordNames` | src/agent/background-registry.mark-terminal.ts:145-156 | In every run, the terminal record of a cancelled job names the source of the last cancel issued while it ran, `explicit` if there was none, and the reason the model gave last, even when somebody else cancelled after it; other terminal records name neither |
| `JobRuns.FirstResultCounts` | src/agent/background-registry.mark-terminal.ts:89-95 | In every run, a job runs exactly until a result arrives for it, and ends with the first result to arrive, whatever comes later |
| `JobRuns.VisitsAreRecorded` | src/agent/background-registry.ts:459-498 | In every run, a trace holds one delivered record for each delivery of the listed, terminal job, and every join is either recorded as joined or still waiting |
| `JobRuns.ListedUntilEvicted` | src/agent/background-registry.mark-terminal.ts:183-188 | In every run, a job is listed exactly until an eviction comes after its end and never again; its eviction is due exactly while it is terminal and listed |
| `JobRuns.ProvenanceIsKept` | src/agent/background-registry.ts:374-398 | In every run, an entry is there if and only if an event made it, exactly one did, and it keeps the provenance given there, or `user` when none was |
| `JobRuns.CreateMakes` | src/agent/background-registry.ts:363-398 | Below the cap a new entry is running, listed, not due for eviction and not cancelled; at the cap nothing happens |
| `BackgroundRegistryClass.BackgroundAgentRegistry.Create` | src/agent/background-registry.ts:363-441 | Refused exactly at the cap and then without a change; otherwise one new entry under a new id |
| `BackgroundRegistryClass.BackgroundAgentRegistry.OnResultArrived` | src/agent/background-registry.ts:651-671 | The terminal pipeline up to its first await, guarded by the running status of a listed job |
| `BackgroundRegistryClass.InternalJob.MarkTerminal` | src/agent/background-registry.mark-terminal.ts:89-195 | The in-place update of one job is the terminal step of the model |
| `BackgroundRegistryClass.BackgroundAgentRegistry.OnTeardownDone` | src/agent/background-registry.mark-terminal.ts:195-220 | The pipeline after teardown returned or threw |
| `BackgroundRegistryClass.BackgroundAgentRegistry.OnCleanupDone` | src/agent/background-registry.mark-terminal.ts:205-220 | The pipeline after cleanup returned or threw |
| `BackgroundRegistryClass.BackgroundAgentRegistry.CancelJob` | src/agent/background-registry.ts:510-516 | Issued exactly for a listed running job, which is attributed to an explicit cancel |
| `BackgroundRegistryClass.BackgroundAgentRegistry.CancelModelJob` | src/agent/background-registry.ts:519-526 | Issued exactly for a listed running job of the model, with its reason |
| `BackgroundRegistryClass.BackgroundAgentRegistry.CancelAll` | src/agent/background-registry.ts:539-545 | Attributes every running job to the cascade and nothing else |
| `BackgroundRegistryClass.BackgroundAgentRegistry.ResumeJoin` | src/agent/background-registry.ts:468-478 | A resumed join records the terminal status and returns the stored result |
| `BackgroundRegistryClass.BackgroundAgentRegistry.MarkDelivered` | src/agent/background-registry.ts:489-498 | A delivery is recorded for a listed terminal job only |
| `BackgroundRegistryClass.BackgroundAgentRegistry.Evict` | src/agent/background-registry.mark-terminal.ts:183-188 | Removes the entry whose timer fires and keeps the set of running jobs |
| `SizeRatchet.Gate.UpdateBaseline` | scripts/lib/size-ratchet.ts:125-182 | When an update is refused and with which growth events, that a refused update leaves the file alone, and that an accepted one records exactly the oversized measurements at their sizes, keeps the hand-written fields of known keys and stamps new ones; what it keeps and drops |
| `RatchetModel.UpdateWrites` | scripts/lib/size-ratchet.ts:160-176 | An accepted update records exactly the keys measured over the limit, each at its measured size; known keys keep reason and permanence, a new key carries the given reason, or the legacy one in a bootstrap or when none was given |
| `RatchetTheorems.RatchetTightens` | scripts/lib/size-ratchet.ts:140-176 | After an accepted update only its own measurement counts: a no-growth update on a later one is refused, and the check reports growth, if and only if some oversized key was not measured before or is now larger than it was then |
| `SizeRatchet.BlockedIff` | scripts/lib/size-ratchet.ts:141-154 | The blocked events are exactly those of measured keys over the limit that are new or grew |
| `SizeRatchet.Gate.CollectViolations` | scripts/lib/size-ratchet.ts:230-283 | The list holds exactly the NEW, GREW, RETIRED and STALE reports due |
| `RatchetTheorems.AcceptedUpdateIsClean` | scripts/lib/size-ratchet.ts:160-181 | After any accepted update, the check finds nothing on the same sizes |
| `RatchetTheorems.CheckVersusUpdate` | scripts/lib/size-ratchet.ts:140-158 | With a file present, the check reports NEW or GREW if and only if a no-growth update would refuse or some key grew below the limit |
| `RatchetTheorems.CheckAndUpdateAgree` | scripts/lib/size-ratchet.ts:246-252 | The two agree if and only if no key grew below the limit or some oversized key is new or grew as well; in particular when all entries exceed the limit |
| `RatchetTheorems.CheckCanBeStricter` | scripts/lib/size-ratchet.ts:246-252 | An entry of 5 under a limit of 10 that grows to 7 is reported by the check and let through by the update |
| `RatchetTheorems.DropsUnreported` | scripts/lib/size-ratchet.ts:162-176 | An accepted update drops an entry about which the check reports nothing if and only if the entry is permanent and its key fits both the limit and the record |
| `RatchetTheorems.UpdateShrinks` | scripts/lib/size-ratchet.ts:156-176 | A no-growth update only lowers sizes and drops keys, and keeps the hand-written fields of kept keys |
| `RatchetTheorems.HistoryShrinks` | scripts/lib/size-ratchet.ts:112-182 | The same over every history of no-growth updates from an existing baseline |
| `RatchetTheorems.LaterTreesAreBounded` | scripts/lib/size-ratchet.ts:230-265 | Any tree that later passes the growth checks has every oversized key in the first baseline, at that size or more |
| `RatchetTheorems.GrowthNeedsApproval` | scripts/lib/size-ratchet.ts:130-158 | An update that adds or raises a key was given allowGrowth |
| `BaselineMerge.UnionBaselines` | scripts/lib/regen-generated-union.ts:18-31 | The nested loops compute the union of the two baselines |
| `BaselineMerge.UnionAt` | scripts/lib/regen-generated-union.ts:23-28 | The merged record of each key: the larger size (at least zero), permanent if either side is, and ours' reason unless it is blank and theirs has the key |
| `BaselineMerge.UnionCommutes` | scripts/lib/regen-generated-union.ts:18-31 | Keys, sizes and permanence do not depend on the order of the sides |
| `BaselineMerge.UnionAssociates` | scripts/lib/regen-generated-union.ts:18-31 | Three versions merge to the same entries in either grouping |
| `BaselineMerge.UnionIdempotent` | scripts/lib/regen-generated-union.ts:24 | Merging a version with itself changes nothing if and only if no recorded size is negative |
| `BaselineMerge.LimitAssociates` | scripts/lib/regen-generated-union.ts:30 | The limit associates except when the first two versions are absent and the third has a limit other than 350 |
| `BaselineMerge.UnionRefuses` | scripts/lib/regen-generated-union.ts:7-12 | An update against the union refuses a key if and only if it would be refused against ours and against theirs |
| `BaselineMerge.UnionIsLeast` | scripts/lib/regen-generated-union.ts:7-31 | The union is the least upper bound: a baseline approves all it approves if and only if it approves all that either side approves |
| `BaselineMerge.MergeThenUpdate` | scripts/lib/regen-generated-union.ts:7-31 | Merge, then update without growth: refused if and only if an oversized key is past both versions; otherwise it records the measured sizes, with the reason of the first version that gives one and the permanence of either |
| `BaselineMerge.UnionPosix` | scripts/lib/regen-generated-union.ts:47-59 | The nested loops compute the rule-by-rule maximum of the two sides |
| `BaselineMerge.PosixUnionLaws` | scripts/lib/regen-generated-union.ts:47-59 | Merging counts is commutative and idempotent |
| `BaselineMerge.PosixUnionAssociates` | scripts/lib/regen-generated-union.ts:47-59 | Merging counts is associative |
| `BaselineMerge.PosixUnionRefuses` | scripts/lib/regen-generated-union.ts:46-59 | A count grows past the union if and only if it grows past both sides |
| `BaselineMerge.CountFindings` | scripts/lib/posix-guard.ts:97-101 | Each rule's count is the number of its findings, and a rule without findings has none |
| `BaselineMerge.CompareToBaseline` | scripts/lib/posix-guard.ts:149-165 | growth and shrunk hold exactly the (file, rule) pairs above and below the baseline, with both counts |
| `BaselineMerge.TypecheckUnionLaws` | scripts/lib/regen-generated-union.ts:64-77 | The error count is a commutative, associative least upper bound, and a reason given on either side is never lost; of two, that of the version with more errors survives, ours on a tie |
| `BaselineMerge.TypecheckReasonAssociates` | scripts/lib/regen-generated-union.ts:64-77 | Both groupings of three merges keep the same reason if and only if none of three cases holds: a version with the most errors gives no reason, the others differ, and the groupings hand it different ones |
| `BaselineMerge.TypecheckReasonDoesNotAssociate` | scripts/lib/regen-generated-union.ts:70-72 | An instance of the first case |
| `CanonicalTheorems.StableStringifyCanonical` | src/agent/afk-channel.ts:40-57 | Two JSON values have the same canonical text if and only if they are equal up to member order at every depth, members named `__proto__` aside |
| `CanonicalTheorems.CanonicalWithoutProto` | src/agent/afk-channel.ts:40-57 | Without members of that name the text is canonical in the plain sense |
| `CanonicalTheorems.ProtoIsForgotten` | src/agent/afk-channel.ts:53 | A member named `__proto__` is left out of the text |
| `CanonicalTheorems.ReadsBack` | src/agent/afk-channel.ts:44-57 | A JSON reader written apart from the serializer reads the canonical text back as the value with its members sorted, which is the value signed up to member order, members named `__proto__` aside |
| `CanonicalProofs.SerRead` | src/agent/afk-channel.ts:45 | JSON text followed by a separator is read back as the value it was made from, and the reader stops where it ends |
| `CanonicalProofs.BodyRead` | src/agent/afk-channel.ts:45 | A string literal, with its escapes and lone surrogates, is read back unit by unit up to its closing quote |
| `CanonicalTheorems.SortCanonical` | src/agent/afk-channel.ts:48-57 | Sorting two values gives the same value if and only if they are equivalent |
| `CanonicalTheorems.SortMembersSorts` | src/agent/afk-channel.ts:53 | The rebuilt object enumerates every member once, array indices by value before other keys by code unit |
| `CanonicalProofs.SerInjective` | src/agent/afk-channel.ts:45 | JSON text determines the value |
| `CanonicalProofs.SerPrefix` | src/agent/afk-channel.ts:45 | No JSON text, followed by a delimiter, can be read as another value's text: serialization is prefix-free |
| `CanonicalProofs.SerClean` | src/agent/afk-channel.ts:45 | JSON text contains no NUL |
| `CanonicalTheorems.ResponsesSame` | src/agent/afk-channel.ts:133-135 | For all responses, whatever their ids hold: the inputs are equal if and only if the NUL-joined id pairs are and the results are equal up to member order |
| `CanonicalTheorems.ResponseDetermines` | src/agent/afk-channel.ts:37-38 | A response's input is shared by no response with another session, request or (up to member order) result if and only if its own ids contain no NUL |
| `CanonicalTheorems.AbortDetermines` | src/agent/afk-channel.ts:162-164 | An abort's input is shared by no abort with another session or nonce if and only if its own session and nonce contain no NUL |
| `CanonicalTheorems.KindsDiffer` | src/agent/afk-channel.ts:133-164 | No response shares its signed input with an abort, whatever the fields |
| `CanonicalTheorems.NulMovesBoundary` | src/agent/afk-channel.ts:37-38 | An instance of the other case: a NUL in the session moves the boundary between two fields |
| `RedirectProofs.ResolverExact` | scripts/lib/docs-links.ts:43-56 | For every site whose wildcard rules shorten the path, the resolver returns true if and only if the first-match redirect chain halts at an existing page |
| `RedirectProofs.LoopNeverHalts` | scripts/lib/docs-links.ts:45-46 | A chain that returns to a target never halts, so answering false for a seen target is right |
| `Redirects.StepDecreases` | scripts/lib/docs-links.ts:43-56 | The termination measure: unseen literal sources, then the length of the path |
| `RedirectProofs.MovesToRootShortens` | scripts/lib/docs-links.ts:32-39 | Every wildcard rule that moves a prefix to the root shortens paths |
| `RedirectProofs.SiteTableShortens` | website/next.config.ts:22-37 | The website's own redirect table qualifies |
| `RedirectProofs.LiteralListsShorten` | scripts/lib/docs-links.ts:40 | A list without wildcard rules qualifies |
| `RedirectRules.WildcardSends` | scripts/lib/docs-links.ts:32-39 | A wildcard rule with prefix p applies to p and to every path below p/, sends p to its destination without the parameter, and p/rest to the destination with rest in the place of its first parameter |
| `RedirectRules.WildcardWithoutParam` | scripts/lib/docs-links.ts:39 | A wildcard rule whose destination has no parameter sends all these paths to the destination |
| `RedirectRules.ReplacesFirst` | scripts/lib/docs-links.ts:39 | The replacement puts the text where the first parameter was and leaves what is around it |
| `RedirectRules.TakenDecides` | scripts/lib/docs-links.ts:47-54 | The first rule that applies decides, wherever it stands: later rules and an existing page do not count, and an external destination fails |
| `RedirectRules.ExternalForm` | scripts/lib/docs-links.ts:52 | A destination is external if and only if it begins with a letter, then letters, digits, plus, dot and hyphen, then a colon; an absolute path never is |
| `RedirectRules.SiteTableMeans` | website/next.config.ts:22-37 | The website's table, for every path: /docs and what is below it loses the prefix, three pages have moved, and every other path is right if and only if it is a page |
| `RedirectRules.DocsPrefixIsDropped` | website/next.config.ts:26-27 | A path below /docs is right if and only if the path without the prefix is |
| `RedirectResolver.Resolves` | scripts/lib/docs-links.ts:43-56 | The recursion over a set shared by all calls computes that answer, and records the target; where each rule sends a path is said by `RedirectRules.WildcardSends` and `RedirectRules.TakenDecides` |
| `EventLog.TurnsConserve` | scripts/outcomes-backfill-events.ts:157-274 | For every log, the tool events across the output turns are exactly the tool records and orphan results, in log order |
| `EventTurns.TurnsAreStretches` | scripts/outcomes-backfill-events.ts:138-182 | For every log, cut at its user messages: the turns are, in order, exactly the stretches with a user text, an assistant text or a tool event, each with its user text, its assistant texts one per line with leading empty ones dropped, and its tool events |
| `EventLog.EntriesAre` | scripts/outcomes-backfill-events.ts:211-258 | That list is strictly increasing and holds exactly those positions |
| `EventLog.AnswerGoesToLatest` | scripts/outcomes-backfill-events.ts:226-241 | A result completes the record it is about if and only if the latest record with its id is a tool record, and otherwise becomes an orphan |
| `EventLog.AnsweredExactly` | scripts/outcomes-backfill-events.ts:226-257 | A tool record holds an answer if and only if some later result completes it, wherever its turn is by then, and at most one result does |
| `EventLog.EntrySays` | scripts/outcomes-backfill-events.ts:190-258 | What an output event says: a tool record its name, its input and the answer that completed it, an error exactly for a tool error; an orphan its own content under the name `unknown` |
| `EventLog.GoesToLatestOpenExactly` | scripts/outcomes-backfill-events.ts:220-257 | A result completes the latest tool record with its id that is still unanswered, and is an orphan when there is none, if and only if it does not follow another answer for an id that was reused before its first use was answered; exactly then it is an orphan beside an unanswered record |
| `EventLog.FirstOfTwoStaysOpen` | scripts/outcomes-backfill-events.ts:220 | The smallest such log: two records with one id, two results |
| `EventReader.ParseEvents` | scripts/outcomes-backfill-events.ts:147-275 | The parser over shared tool-event objects: one turn for each stretch between user messages that says something, with its texts and its entries' objects in order, and every object carries the answer the whole log gives its record |
| `EventReader.Reader.FlushBuffer` | scripts/outcomes-backfill-events.ts:163-169 | The buffered turn goes out exactly when it has a user text, an assistant text or a tool event, and the buffer starts fresh |
| `EventReader.Reader.TakeAnswer` | scripts/outcomes-backfill-events.ts:226-257 | Completing a pending record in place, or adding an orphan, keeps the correspondence with the log |
| `ReadDedup.DuplicateBounds` | scripts/workspace-ab/analyze-read-dedup.ts:85-129 | cross-agent duplicates are at most calls minus groups, which is at most cross-agent plus self duplicates |
| `ReadDedup.CountsAnyOrder` | scripts/workspace-ab/analyze-read-dedup.ts:107-119 | All counts are independent of the order of the calls when their sequence numbers are distinct |
| `ReadDedup.OrderFreeExactly` | scripts/workspace-ab/analyze-read-dedup.ts:103-121 | The cross-agent count is the same for every order of the calls if and only if, in every group, all agents tied for the earliest call have equally many calls |
| `ReadDedup.RestAnyOrder` | scripts/workspace-ab/analyze-read-dedup.ts:39-57 | Groups, agents and self duplicates never depend on the order |
| `ReadDedup.TiesFollowOrder` | scripts/workspace-ab/analyze-read-dedup.ts:116-118 | An instance where they do not: reordering three calls changes the count |
| `ReadDedup.FirstListedOwns` | scripts/workspace-ab/analyze-read-dedup.ts:116-118 | On a tie the agent listed first owns the group |
| `ReadDedup.OwnerIsEarliest` | scripts/workspace-ab/analyze-read-dedup.ts:106-118 | Without ties the owner of a group is the agent of its earliest call |
| `ReadDedup.TotalIsLength` | scripts/workspace-ab/analyze-read-dedup.ts:90-98 | Counting a group agent by agent counts every call once |
| `ReadDedupScan.SortedAscends` | scripts/workspace-ab/analyze-read-dedup.ts:116-118 | The stable sort orders agents by first call |
| `ReadDedupScan.GroupReads` | scripts/workspace-ab/analyze-read-dedup.ts:39-57 | Grouping into shared records: each group holds its calls in order, their number and their agents |
| `ReadDedupScan.CrossOf` | scripts/workspace-ab/analyze-read-dedup.ts:103-121 | The tail of the sorted agents sums to the group's calls minus its owner's |
| `ReadDedupScan.SelfOf` | scripts/workspace-ab/analyze-read-dedup.ts:96-99 | The counts beyond one sum to the group's calls minus its agents |
| `ReadDedupScan.ComputeDuplication` | scripts/workspace-ab/analyze-read-dedup.ts:85-134 | Over all groups: self duplicates are calls minus distinct (group, agent) pairs, cross-agent duplicates are calls minus those of each group's owner |
| `ReadDedupCalls.KeysMeet` | scripts/workspace-ab/analyze-read-dedup.ts:41-43 | Two calls fall into one group if and only if tool and arguments are the same, or the name of one continues the name of the other behind a bar and the fingerprint makes up for it |
| `ReadDedupCalls.BarFree` | scripts/workspace-ab/analyze-read-dedup.ts:41 | Names without bars, or fingerprints without bars, are never mixed up |
| `ReadDedupCalls.GroupsArePairs` | scripts/workspace-ab/analyze-read-dedup.ts:24-57 | The number of groups is at most the number of different (tool, arguments) pairs, and is that number if and only if no calls are mixed up |
| `ReadDedupCalls.SelfCounts` | scripts/workspace-ab/analyze-read-dedup.ts:90-99 | Without mix-ups, self duplicates are the calls beyond the first of the same tool, arguments and agent |
| `ReadDedupCalls.CrossIsZero` | scripts/workspace-ab/analyze-read-dedup.ts:101-121 | Without mix-ups, cross-agent duplicates are zero if and only if no two agents made the same call |
| `ReadDedupCalls.CrossCounts` | scripts/workspace-ab/analyze-read-dedup.ts:101-121 | Without mix-ups and with distinct sequence numbers, cross-agent duplicates are the calls that another agent made first |
| `ReadDedupCalls.CarriersAre` | scripts/workspace-ab/analyze-read-dedup.ts:148 | The filter keeps exactly the calls with a resource fingerprint, in order |
| `ReadDedupCalls.OverlapIsZero` | scripts/workspace-ab/analyze-read-dedup.ts:147-180 | The overlap is over exactly these calls, and without mix-ups zero if and only if no two agents used one tool on one resource |
| `ReadDedupScan.Analyze` | scripts/workspace-ab/analyze-read-dedup.ts:29-80 | The report on the calls: unique fingerprints are the different (tool, arguments) pairs if and only if no calls are mixed up; then self duplicates count repeats by the same agent, and cross-agent duplicates are zero if and only if no two agents made the same call and, with distinct sequence numbers, count the calls another agent made first; agents, ratios, and a zero ratio for no calls |
| `ReadDedupScan.FileOverlapRatio` | scripts/workspace-ab/analyze-read-dedup.ts:136-180 | The resource-level ratio over calls that carry a resource fingerprint, absent if and only if none does; without mix-ups it is zero if and only if no two agents used one tool on one resource |
| `ReadDedupScan.RatioBelowOne` | scripts/workspace-ab/analyze-read-dedup.ts:63-64 | Both ratios lie in the half-open interval from 0 to 1 |
| `PoolModel.CallsInOrder` | scripts/outcomes-backfill.ts:112-119 | In every run items are claimed in order and each is called at most once, every run has at most one step per item, and at most `concurrency` calls are in flight |
| `PoolModel.RunSound` | scripts/outcomes-backfill.ts:107-122 | Every run of the pool keeps its invariant, each settled step accounting for one call |
| `PoolModel.NoWorkerIdles` | scripts/outcomes-backfill.ts:115-119 | While an item is unclaimed, every worker that met no undefined item and no rejection is busy |
| `PoolModel.QuietPool` | scripts/outcomes-backfill.ts:107-122 | A pool at rest has claimed every item or lost every worker to an undefined item or a rejection, and every call made either resolved or is the one its worker failed at |
| `PoolModel.AllItemsClaimed` | scripts/outcomes-backfill.ts:115-122 | When nothing rejects, every item is claimed if and only if fewer than `concurrency` of the items before the last are undefined, whatever the interleaving |
| `PoolModel.ItemRunsExactly` | scripts/outcomes-backfill.ts:115-122 | Item by item: when nothing rejects, a defined item has resolved in the pool at rest if and only if fewer than `concurrency` undefined items come before it |
| `PoolModel.AllItemsRun` | scripts/outcomes-backfill.ts:115-122 | So exactly the defined items have resolved if and only if each has fewer than `concurrency` undefined ones before it |
| `PoolModel.HoleStopsTheOnlyWorker` | scripts/outcomes-backfill.ts:117 | One undefined item in front of a single worker: the pool comes to rest with the second item never called |
| `WorkerPool.RunConcurrent.constructor` | scripts/outcomes-backfill.ts:121 | Starting the workers one after the other computes the launch function |
| `WorkerPool.RunConcurrent.Resume` | scripts/outcomes-backfill.ts:114-120 | A settled call sends its worker through its loop to the next await, as in the model |

## Left out

- Abort graph: the trace sink, abort origins and the text form of reasons (`stringifyReason`); exceptions thrown by
  subscribed callbacks, which are isolated by the source; callbacks that call back into the graph; listeners other than
  the two closures the graph installs. The once-only listeners of a controller are taken off together before they run.
- Abort graph: `has` and `getController`, which only look up.
- Background jobs: labels, models, timestamps, telemetry, log writers, transcript tails, touched files and `steer`; the
  drain timeout of `cancelAll`; how a handle's cancel leads to a result (any result may arrive at any time); a throwing
  `started` or `settled` listener or a throwing `runInBackground`; the joiners list no code reads; disk sweeping.
- Background jobs: the counter is unbounded and its seed a parameter; the base-36 clock reading in a job id is an
  arbitrary text, on which no proof depends.
- Summarizer: transcript truncation and redaction, prompts, the classification of errors and the delay before a retry
  (a failure is retryable or not); a `callLLM` given by the caller has no retry (`retries` off).
- Size ratchet: TOUCHED reports and `changedSince`, file reading and JSON layout, detail texts, the order of reports;
  lookups of keys inherited from `Object.prototype`; sizes are integers.
- Baseline merge: parsing, the offending sites attached to a growth report and the sorted order of files; the
  type-check ratchet's own update.
- Signing form: HMAC, digest comparison and key files; numbers are their canonical text, and `undefined`, `toJSON` and
  non-finite numbers are not represented.
- Redirects: `slug` is a parameter of the site; `parseRedirects`, `links` and `internalTarget` are text scanners;
  `$` patterns in the replacement text; redirect lists whose wildcard rules lengthen the path, on which the recursion
  need not end.
- Event log: reading and parsing lines, session id, working directory and closure info; a missing field has already
  become its default; inputs are serialized text.
- Read duplication: the list of hottest fingerprints and `validate`; counts are exact integers and ratios exact
  fractions. The file-overlap pass keeps its per-agent counts while grouping; here it shares the grouping and counting
  of the main report, which gives the same number.
- Worker pool: what the promise of the pool itself resolves to, and the statistics its caller accumulates.
- Remote approval, command classification, path helpers, audits, renderers and reports: not modelled.
