# n8n services: a verified model

This project models the stateful services of the n8n command-line package (`packages/cli/src`) in Dafny and proves
what they keep over every input, every history of calls and every interleaving.

Each service appears twice. A class has the fields of the program's class and methods that update them in place. Pure
functions give the same behaviour on values; every method is proved to compute its function, and the theorems are
lemmas about the functions. Where several things happen at once (executions, retries, polls), a run is any sequence of
steps, and a step is what runs between two awaits; activating and removing a workflow are single steps in `Activation`
and come apart at the awaits of their bookkeeping in `Bookkeeping`.

| part | files |
|---|---|
| Credential inheritance and overwrites | `FirstOccurrence`, `CredentialTypes`, `OverwriteRules`, `OverwriteTheorems`, `SingleInheritance`, `KeyOrder`, `CredentialsOverwrites` |
| Running executions and the production limit | `ExecutionProtocol`, `ExecutionTheorems`, `ConcurrencyLimit`, `ActiveExecutions` |
| Activating workflows and retrying | `Webhooks`, `Backoff`, `Activation`, `RetryTimers`, `Bookkeeping`, `ActiveWorkflowManager` |
| Waking waiting executions | `WaitTracking`, `WaitTracker` |
| Rebuilding the node registries | `PostProcessing`, `RebuildsAmidQueries`, `LoadNodesAndCredentials` |

`dafny verify dfyconfig.toml` checks everything.

## Credential inheritance and overwrites

`getParentTypes` appends to the very array it reads, so the stored `extends` arrays grow with each call.
`ParentTypesAfterAnyHistory` says that, whatever was asked before, the list returned has the first-occurrence order of
the plain recursion "direct parents, then the list of each parent" and holds exactly the types that a path along
`extends` reaches.

`setData` marks a type that it meets through a child as resolved without storing what it collected, so the stored
table depends on the order of its keys. `SetDataSandwich` is the invariant that survives: raw fields are below the
stored ones, and the stored ones below the inherited ones. From it follow, for every key order and history:

* for any number of parents, `LookupAfterSetData`: the fields of a lookup are those that the type or an ancestor
  defines, each value is the raw value of one of them that is not hidden on the path to it, and own values win;
* on a chain, `NearestTypeWins`: each field comes from the nearest type that defines it, along declared or grown arrays;
* `TransparentIffLinear`: `setData` changes no lookup exactly when the ancestry is a chain. With two parents the later
  one wins while resolving (lines 82-84) and the earlier one in the lookup (lines 97-101);
* `ExtendedTypesOrderFree`: for a type that some type extends, the order of the keys is irrelevant exactly when its
  ancestry is a chain; `OrderFreeIffLinear` says the same of types whose way up is joined by another type further up.

The relation `extends` is taken to be acyclic (`Ranked`: every type has a higher rank than the types it extends), with a
separate array for each type. All loaded credentials are known credentials, as the loaders provide.

What `setData` stores comes from known types only (`StoredFromKnown`), and the type visited first comes to hold every
field of its ancestry, however far up (`FirstVisitedHasAll`).

Growth does show in one place. The array a class declares and the array in the registry of known types can be one
object (classes that a directory loader instantiated itself; the set `shared`). `getOverwrites` then walks the grown
array. Under single inheritance, a `setData` after any queries obeys the nearest-type rule for a type exactly when no
shared array of the type or of an ancestor holds more than one type (`ObeysRuleIff`); for classes with arrays of their
own it always does (`QueriesBeforeSetData`). `GrownSharedArrayBreaksSetData` exhibits a table otherwise, and
`OneQueryGrows` says that one ancestor query is enough.

## Running executions and the production limit

Every call of `add` is numbered and moves through the phases begun, queued, admitted, live, settled, done; steps of
different calls interleave freely. The model covers `executions.mode = regular`; the limit 0 in the model stands for
the setting that switches the control off. `Ledger` accounts for every slot in every reachable state: throttles minus
releases are the table entries, the admitted calls not yet installed, the stranded calls and the calls lost to a failing
storage update. The accounting by table entries alone is exact throughout a run exactly when no step installs over an
entry and no storage update of an admitted call fails (`CountExactThroughoutIff`); adding no id that is in use is one
way to make sure (`ThrottlesMinusReleases`).

A new execution has to wait exactly when the control is enabled, it is that of a trigger or webhook, and the limit is
reached by those past throttling and not cleaned up (`WaitsIff`); waiting executions are let in in the order in which
they came (`FirstInFirstOut`). Shutting down cancels something of its own exactly with `cancelAll` and a table that is
not empty (`ShutdownCancelsNoneIff`), and leaves the waiting ones waiting (`ShutdownKeepsQueue`).

Where the code does not do what its comments say:

* Adding an id again before its entry is deleted replaces the entry. A pending call is stranded exactly when another one
  is installed under its id, or when the replaced one, settled before, is cleaned up and deletes the new entry
  (`StepStrandsIff`). A stranded call can never be settled and never gives its slot back; any other one can
  (`EndsIffRecorded`).
* `ConcurrencyQueue.remove` frees a slot that a waiting execution never held and resolves the next one. One more
  execution than the limit runs exactly when another one was waiting (`RemovalKeepsLimitIff`).
* `shutdown` disables the control before it asks for the queue to be emptied. With different ids in the queue, that
  empties it exactly if the control is enabled (`RemoveAllEmptiesIff`); a disabled one leaves it as it is, in any run
  (`DisabledFreezesQueue`). With ids that repeat, even an enabled control can leave some, since each different id takes
  two entries at most (`RemoveAllTakesTwoEach`). After disabling, the limit no longer holds at all
  (`LimitHoldsIffEnabled`).
* `shutdown` skips the wait when the table was empty at first. On return the table is empty, whatever the suspensions
  bring, exactly when it was not empty at first or nothing is cancelled (`ShutdownEmptiesIff`).

## Activating workflows and retrying

The state holds the webhook table, the workflows active in memory, the recorded errors, the retry queue, the live
timers and the retries under way. A single main is modelled. What each awaited call does (find the workflow, store a
row, create a webhook, start triggers, save) is a parameter, and `AddOutcome` says what an activation comes to in terms
of these. With retries as single steps, every queued workflow has a live timer that retries it in the mode and after the
delay of its entry, in every reachable state and, for all others, while a retry is under way (`QueuedAreRetried`).

Where the code does not do what one would expect:

* `storeWebhook` upserts, so a webhook with the method and path of another workflow replaces that row instead of
  failing, and a roll-back afterwards loses the row (`OthersSameIffNoCollision`, `RowTakenIff`). This holds in `init`
  mode as well; there no key disappears, and a second start-up that meets the same errors changes nothing
  (`InitTwice`).
* The cache and the static data are written after the loop over the webhooks; if that fails, `addWebhooks` throws with
  all rows left (`AllOrNothing`).
* Saving static data at the very end of `add` (line 602) is outside its `try` block. When a start-up fails there, the
  workflow is queued without an error; apart from clearing errors nothing else does that while operations do not overlap
  (`QueuedHaveErrorsIff`). When they overlap, a removal that drops the error between the failure of a start-up and its
  queueing does it too; `AccountedThroughoutIff` has the exact condition.
* A workflow that fails on a leadership change is queued in `init` mode (line 467), as one that fails at start-up is.
* A retry that fails while its workflow has a live timer again leaves that timer behind for good (`RetryEndKeepsIff`);
  with retries as single steps this cannot happen (`NoOrphansOverRuns`).
* A failed retry reads a property of `undefined` when it finds no entry of its workflow. Where the entry is there at
  first, as it always is with retries as single steps, that is when everything was set up but one of the two writes
  after that fails (`ReadsMissingIff`, `SingleRetryReadsMissingIff`).
* A retry under way when its workflow is removed makes the workflow active again exactly when it reaches triggers,
  whether they start or not, and brings its webhooks back exactly when one was stored and not rolled back
  (`RetryAfterRemoval`).

## Waking waiting executions

However polls, timers, stops and leadership changes overlap, each execution has at most one live timer
(`OneLiveTimer`). A stopped execution is not started until a poll that found it ends (`StoppedNotStarted`), and one that a
poll finds without an entry is started by the timer that this sets (`PollWakes`). But `stopTracking` clears the timers and keeps their entries, and a poll passes over executions with
an entry: after stepping down and taking over again, those executions are never started (`StopTrackingForgets`,
`ForgottenNeverStarts`, `PollSchedulesIff`). Tracking twice without stopping leaves an interval that nothing can clear
(`StartTrackingKeepsIff`, `StopTrackingSleepsIff`).

## Rebuilding the node registries

Rebuilds start from descriptions that the loaders own, so option lists extended once are met again. Lists are known by
identity, and several nodes may share one. After any number of rebuilds each `resource` or `operation` list of an
eligible node holds the custom call once, and every other list is as it was (`WhichListsGrow`, `ExactlyOneCall`). An empty
list of an eligible node makes the rebuild throw, and nothing else does (`PostProcessLoaders`).

A directory loader keeps one `extends` array for the class of a credential and for the known type, so ancestor queries
between rebuilds make nodes eligible: before, an OAuth type has to be a parent of the credential, after, any ancestor
(`QueryWidensProxy`). The arrays of the last rebuild decide which lists are extended (`LastRebuildDecides`).

## Model

| member | source | states |
|---|---|---|
| FirstOccurrence.FirstOccMeaning | packages/cli/src/credential-types.ts:33-41 | the first-occurrence order holds the same elements, each once, ordered as their leftmost positions: the notion in which grown lists agree |
| FirstOccurrence.AddAllBetween | packages/cli/src/credential-types.ts:36-38 | appending to a list that already holds a leading part of the result yields the same result, so a partly grown array completes to the same order |
| CredentialTypes.Grow | packages/cli/src/credential-types.ts:33-41 | a call of `getParentTypes` keeps the relation acyclic, adds no type and touches only arrays of types ranked below the one asked for, and its own |
| CredentialTypes.AncestorsAreReachable | packages/cli/src/credential-types.ts:30-32 | the reference ancestor list holds exactly the types reached by a non-empty path along `extends` |
| CredentialTypes.GrowKeeps | packages/cli/src/credential-types.ts:33-41 | from any partly grown arrays, a call keeps every array within the first-occurrence bounds and completes the array of the type asked for |
| CredentialTypes.ParentTypesAfterAnyHistory | packages/cli/src/credential-types.ts:33-41 | after any calls on any types, the list returned has the first-occurrence order of the plain recursion, and its set of types is exactly the proper ancestors |
| CredentialTypes.StoredArraysHoldAncestors | packages/cli/src/credential-types.ts:36-38 | at any time every stored array holds proper ancestors of its own type only |
| SingleInheritance.FirstQueryOnChain | packages/cli/src/credential-types.ts:36-38 | the first query of a chain returns each ancestor once, nearest first: what was pushed during the visit is not visited |
| CredentialTypes.CredentialTypes.GetParentTypes | packages/cli/src/credential-types.ts:33-41 | the loop that pushes onto the shared arrays terminates, leaves them as the growth function says, and returns the array of the type |
| CredentialTypes.CredentialTypes.ExtendsOf | packages/cli/src/credential-types.ts:22-24 | the array that the class shows: the known one, as far as it has grown, where class and known type share it, the declared one otherwise |
| OverwriteTheorems.LookupAfterAnyHistory | packages/cli/src/credentials-overwrites.ts:95-102 | `get` returns the same overwrites after every history of ancestor queries |
| OverwriteTheorems.ResolveSound | packages/cli/src/credentials-overwrites.ts:63-93 | whatever is marked as resolved, what a resolution finds is inherited, and for a recognized type includes its raw fields |
| OverwriteTheorems.SetAllSound | packages/cli/src/credentials-overwrites.ts:35-41 | every iteration of `setData` keeps raw below stored below inherited |
| OverwriteTheorems.SetDataSandwich | packages/cli/src/credentials-overwrites.ts:29-42 | for every table and key order the stored table lies between raw and inherited values, and no type gains or loses its entry |
| OverwriteTheorems.StoredFromKnown | packages/cli/src/credentials-overwrites.ts:69-83 | a stored field is the raw value of the type itself or of one that a path of known types reaches, unhidden on it; the entry of an unknown type stays raw |
| OverwriteTheorems.LookupAfterSetData | packages/cli/src/credentials-overwrites.ts:29-102 | any acyclic relation, key order and history: a lookup has exactly the fields of the type and its ancestors, each value is an unhidden raw value of one of them, own raw values win |
| OverwriteTheorems.EarlierParentWins | packages/cli/src/credentials-overwrites.ts:95-101 | with several parents, a field that neither the type nor a parent defines comes from the first parent whose own lookup finds it |
| OverwriteTheorems.InheritsFromFamily | packages/cli/src/credentials-overwrites.ts:81-102 | an inherited value is the raw value of the type itself or of one of its ancestors |
| SingleInheritance.NearestTypeWins | packages/cli/src/credentials-overwrites.ts:29-102 | on a chain, for every table, key order and history, and along declared or grown arrays, each field is the raw value of the nearest type that defines it |
| SingleInheritance.SetDataAgain | packages/cli/src/credentials-overwrites.ts:29-42 | running `setData` on the table it produced changes no lookup on a chain, in whatever key orders, nor the set of types with an overwrite |
| SingleInheritance.TwoParentsDisagree | packages/cli/src/credentials-overwrites.ts:82-101 | for a type whose first and last parent differ there is a table on which resolving picks the last parent and looking up the first |
| SingleInheritance.TransparentIffLinear | packages/cli/src/credentials-overwrites.ts:63-102 | `setData` changes no lookup of a type, for all tables and key orders, if and only if the ancestry it walks is a chain; for arrays that start with the declared parents, known and named once, and do not end with the parent they start with if they name two |
| SingleInheritance.GrownChainsAreWellDeclared | packages/cli/src/credential-types.ts:33-41 | in any grown state of a single-inheritance relation, the arrays that `setData` walks meet the premises of that equivalence |
| SingleInheritance.GrownSharedArrayBreaksSetData | packages/cli/src/credentials-overwrites.ts:74-84 | once a shared array of a type has grown, some table set afterwards is looked up against the nearest-type rule |
| SingleInheritance.QueriesBeforeSetData | packages/cli/src/credentials-overwrites.ts:74-84 | after any ancestor queries, for a chain of types whose classes have arrays of their own: every field of a lookup is the nearest definition, for every table and key order |
| SingleInheritance.ObeysRuleIff | packages/cli/src/credentials-overwrites.ts:74-84 | under single inheritance, in any grown state: that rule holds for a type, all tables, key orders and fields, if and only if no shared array of the type or an ancestor holds more than one type |
| SingleInheritance.OneQueryGrows | packages/cli/src/credential-types.ts:36-38 | after one ancestor query of a type with a grandparent its array is longer than any single-parent declaration |
| KeyOrder.ResolveMarks | packages/cli/src/credentials-overwrites.ts:63-92 | resolving a type marks its whole known ancestry as resolved, and nothing is unmarked |
| KeyOrder.FirstVisitedHasAll | packages/cli/src/credentials-overwrites.ts:63-93 | the type visited first comes to hold exactly the fields that it or an ancestor at any distance defines |
| KeyOrder.ChainIsOrderFree | packages/cli/src/credentials-overwrites.ts:35-41 | on a chain no lookup depends on the order of the keys |
| KeyOrder.OrderFreeIffLinear | packages/cli/src/credentials-overwrites.ts:35-41 | when another type joins the way up of a type before its first branching, its lookups are independent of the key order, for all tables, if and only if its ancestry is a chain |
| KeyOrder.ExtendedTypesOrderFree | packages/cli/src/credentials-overwrites.ts:35-41 | with the arrays as declared, the same for every type that some type extends |
| CredentialsOverwrites.CredentialsOverwrites.constructor | packages/cli/src/credentials-overwrites.ts:16-27 | the service starts with the resolved table of the configured overwrites |
| CredentialsOverwrites.CredentialsOverwrites.SetData | packages/cli/src/credentials-overwrites.ts:29-42 | the loop over the keys, with its memo list, leaves the resolved table of the arrays it walks |
| CredentialsOverwrites.CredentialsOverwrites.GetOverwrites | packages/cli/src/credentials-overwrites.ts:63-93 | the recursion returns the fields and the marks that the resolution function gives for the present table and marks |
| CredentialsOverwrites.CredentialsOverwrites.Get | packages/cli/src/credentials-overwrites.ts:95-102 | the lookup along the grown array equals the lookup along the declared reference list |
| CredentialsOverwrites.FillBlanks | packages/cli/src/credentials-overwrites.ts:51-60 | filling the copy key by key, in any order, fills exactly the blank fields that the overwrites define and keeps all others |
| CredentialsOverwrites.CredentialsOverwrites.ApplyOverwrite | packages/cli/src/credentials-overwrites.ts:44-61 | the result is the input with its blank fields filled from the lookup along the declared reference list |
| CredentialsOverwrites.ApplyOverwriteRule | packages/cli/src/credentials-overwrites.ts:44-61 | after `setData`, on a chain: fields neither missing nor null nor empty stay, others take the nearest ancestor's value if there is one, the keys are the union of both, applying twice is applying once |
| ExecutionProtocol.StepKeeps | packages/cli/src/active-executions.ts:49-160 | every step keeps table, queue and counters in agreement with the phases of the calls: entries hold active calls of their id, the queue lists the waiting calls once each, every throttle and release belongs to one call |
| ExecutionProtocol.RunKeeps | packages/cli/src/active-executions.ts:49-160 | so does every interleaving |
| ExecutionProtocol.Position | packages/cli/src/concurrency/concurrency-queue.ts:46 | the first queued call of the id, or the end of the queue if there is none |
| ExecutionTheorems.StepMoves | packages/cli/src/active-executions.ts:49-160 | in a step every call keeps its id and mode and its phase moves at most one place along the protocol |
| ExecutionTheorems.OthersStay | packages/cli/src/active-executions.ts:49-160 | a step moves its own call only, apart from waiting ones that it lets in or removes under their own id |
| ExecutionTheorems.FailureEnds | packages/cli/src/active-executions.ts:73-94 | a call whose execution cannot be created, or not be stored once admitted, is never installed in any further run |
| ExecutionTheorems.RemovedNeverRuns | packages/cli/src/concurrency/concurrency-queue.ts:45-55 | the first waiting execution of a removed id never runs |
| ExecutionTheorems.Ledger | packages/cli/src/active-executions.ts:76-116 | throttles minus releases are the table entries, the admitted, the stranded and the lost calls, in every reachable state |
| ExecutionTheorems.RecordedStepIff | packages/cli/src/active-executions.ts:97-116 | all active calls stay recorded in the table if and only if the step does not install over an entry |
| ExecutionTheorems.CountExactThroughoutIff | packages/cli/src/active-executions.ts:76-116 | counting table entries and admitted calls is exact after every prefix of a run if and only if no step installs over an entry or fails to store an admitted call |
| ExecutionTheorems.CarefulRunTidy | packages/cli/src/active-executions.ts:49-121 | while no id in use is added and storage does not fail after throttling, ids in use stay distinct and every active call is recorded |
| ExecutionTheorems.ThrottlesMinusReleases | packages/cli/src/active-executions.ts:76-116 | over every such interleaving from the start, throttles minus releases are the table entries plus the calls past throttling that are not installed |
| ExecutionTheorems.StepStrandsIff | packages/cli/src/active-executions.ts:99-116 | a step strands a pending recorded call if and only if it installs another call under its id or cleans up the settled call it replaced |
| ExecutionTheorems.EndsIffRecorded | packages/cli/src/active-executions.ts:99-160 | a pending call can still be settled and release its slot if and only if the entry of its id is its own |
| ExecutionTheorems.StrandedForever | packages/cli/src/active-executions.ts:144-160 | a stranded pending call is never settled, cleaned up or released in any further run |
| ExecutionTheorems.OutcomeStays | packages/cli/src/active-executions.ts:144-160 | once an execution is settled its outcome never changes, and once cleaned up it stays so |
| ExecutionTheorems.FirstSettlingDecides | packages/cli/src/active-executions.ts:144-160 | the first stop or finalize of a pending entry decides the outcome, whatever follows |
| ExecutionTheorems.NoStopNoCancel | packages/cli/src/active-executions.ts:144-160 | only a stop cancels: in a run without stops no execution ends cancelled that was not before |
| ExecutionTheorems.OneReleasePerCall | packages/cli/src/active-executions.ts:112-116 | a step releases exactly when it cleans up a settled call, once, and leaves no entry under its id |
| ConcurrencyLimit.StepConserves | packages/cli/src/concurrency/concurrency-queue.ts:22-70 | every step but disabling conserves the limit: free capacity, slots held and executions waiting always add up |
| ConcurrencyLimit.NeverAboveLimit | packages/cli/src/concurrency/concurrency-control.service.ts:85-101 | over every interleaving without removals and disabling at most `limit` executions of triggers and webhooks are past throttling and not cleaned up, and none waits while there are fewer |
| ConcurrencyLimit.WaitsIff | packages/cli/src/concurrency/concurrency-control.service.ts:88-92 | a new execution waits if and only if the control is enabled, its mode is trigger or webhook, and the limit is reached; otherwise it is let in at once |
| ConcurrencyLimit.OthersNeverWait | packages/cli/src/concurrency/concurrency-control.service.ts:156-171 | in no run does an execution of another mode wait |
| ConcurrencyLimit.NothingWaitsWithoutLimit | packages/cli/src/concurrency/concurrency-control.service.ts:46-50 | with the control switched off from the start nothing ever waits |
| ConcurrencyLimit.FirstInFirstOut | packages/cli/src/concurrency/concurrency-queue.ts:31-70 | over every run without removals, of two waiting executions the later one never leaves the queue before the earlier |
| ConcurrencyLimit.RemovalKeepsLimitIff | packages/cli/src/concurrency/concurrency-queue.ts:45-55 | a removal keeps within the limit if and only if its mode is not controlled or it found nothing or the only one waiting; otherwise one too many holds a slot |
| ConcurrencyLimit.RemoveAllEmptiesIff | packages/cli/src/concurrency/concurrency-control.service.ts:117-124 | with different ids in the queue, removing all of them leaves it empty if and only if the control is enabled or nothing was queued |
| ConcurrencyLimit.RemoveAllTakesTwoEach | packages/cli/src/concurrency/concurrency-control.service.ts:120-124 | each id removed takes two entries at most, so repeated ids can be left |
| ConcurrencyLimit.TidyQueuedIdsDiffer | packages/cli/src/active-executions.ts:76-84 | as long as no id in use is added, queued ids differ |
| ConcurrencyLimit.DisabledFreezesQueue | packages/cli/src/active-executions.ts:204-208 | after disabling, no waiting execution resumes or leaves the queue in any run |
| ConcurrencyLimit.LimitHoldsIffEnabled | packages/cli/src/concurrency/concurrency-control.service.ts:85-101 | from a balanced state, every run without removals and disabling keeps within the limit if and only if the control is enabled |
| ConcurrencyLimit.StopAllSettles | packages/cli/src/active-executions.ts:215 | the cancel loop settles every listed entry, cancels exactly those pending, changes no earlier outcome and removes no entry |
| ConcurrencyLimit.RunDrains | packages/cli/src/active-executions.ts:106-116 | once every entry is settled, a run without installs adds and changes no entry and takes away every one that it cleans up |
| ActiveExecutions.ConcurrencyQueue.Enqueue | packages/cli/src/concurrency/concurrency-queue.ts:22-33 | takes one unit of capacity and queues exactly when it is overdrawn |
| ActiveExecutions.ConcurrencyQueue.Dequeue | packages/cli/src/concurrency/concurrency-queue.ts:39-43 | gives one unit back and resolves the one that waited longest |
| ActiveExecutions.ConcurrencyQueue.Remove | packages/cli/src/concurrency/concurrency-queue.ts:45-55 | takes out the first entry of the id and resolves the head of the rest, or changes nothing when the id is not queued |
| ActiveExecutions.ActiveExecutions.Throttle | packages/cli/src/concurrency/concurrency-control.service.ts:88-92 | the throttle step; keeps the invariant of the service |
| ActiveExecutions.ActiveExecutions.Install | packages/cli/src/active-executions.ts:97-104 | the step that enters the execution in the table |
| ActiveExecutions.ActiveExecutions.StopExecution | packages/cli/src/active-executions.ts:144-153 | the stop step; nothing for an unknown id |
| ActiveExecutions.ActiveExecutions.FinalizeExecution | packages/cli/src/active-executions.ts:156-160 | the finalize step; reports an unknown id where the program throws |
| ActiveExecutions.ActiveExecutions.OnSettled | packages/cli/src/active-executions.ts:112-116 | the clean-up step: release, then delete the entry of the id |
| ActiveExecutions.ActiveExecutions.Release | packages/cli/src/concurrency/concurrency-control.service.ts:97-101 | gives capacity back and admits the next waiting call, if the control is enabled and covers the mode |
| ActiveExecutions.ActiveExecutions.RemoveFromQueue | packages/cli/src/concurrency/concurrency-control.service.ts:106-110 | the removal step of a queued execution; nothing for a mode that is not controlled or a disabled control |
| ActiveExecutions.RemovalIsStep | packages/cli/src/concurrency/concurrency-queue.ts:45-55 | removing by position in the queue of ids refines the removal step of the protocol |
| ActiveExecutions.ActiveExecutions.Interleave | packages/cli/src/active-executions.ts:224 | any sequence of other steps during a suspension takes the service where the run of the protocol goes |
| ActiveExecutions.ActiveExecutions.Shutdown | packages/cli/src/active-executions.ts:201-227 | state, return and number of rounds are those of disabling, cancelling and waiting; a return after a wait leaves an empty table, and a wait that lasts has just seen an entry |
| ActiveExecutions.CancelAllSettles | packages/cli/src/active-executions.ts:210-216 | with `cancelAll`, before the wait every execution of the initial enumeration is settled: cancelled, unless it was finalized before the loop |
| ActiveExecutions.ShutdownCancelsNoneIff | packages/cli/src/active-executions.ts:210-216 | whatever happens meanwhile except stops, shutting down cancels no execution of its own if and only if `cancelAll` is off or the table was empty |
| ActiveExecutions.ShutdownKeepsQueue | packages/cli/src/active-executions.ts:204-213 | shutting down leaves the control disabled, every waiting execution waiting and the capacity as it was |
| ActiveExecutions.ShutdownEmptiesIff | packages/cli/src/active-executions.ts:201-227 | a `shutdown` that returns leaves an empty table, for all suspensions and rounds, if and only if the table was not empty at first or nothing is cancelled |
| ActiveExecutions.ShutdownReturns | packages/cli/src/active-executions.ts:210-226 | with `cancelAll`, no installs after the enumeration and rounds that each clean up an entry while there is one, it returns within as many rounds as there were entries, with an empty table |
| Webhooks.AllOrNothing | packages/cli/src/active-workflow-manager.ts:139-222 | outside `init` mode with a roll-back that succeeds: unless an attempt fails every webhook has a row; a throw leaves none if and only if an attempt failed, and it throws if and only if one does or the writes after the loop fail |
| Webhooks.LastRowWins | packages/cli/src/active-workflow-manager.ts:152-175 | of the webhooks that share a method and path the last decides the row |
| Webhooks.TrimmedMeaning | packages/cli/src/active-workflow-manager.ts:165-170 | the stored path is the given one without one slash in front, if there is one, and without one at the end, if there still is one |
| Webhooks.RowMeaning | packages/cli/src/active-workflow-manager.ts:158-175 | the row names workflow and node; it has the id of the node and the number of segments if and only if the path has a parameter and the node an id |
| Webhooks.OthersSameIffNoCollision | packages/cli/src/webhooks/webhook.service.ts:94-98 | rows of other workflows stay the same under every failure if and only if no webhook uses a method and path of theirs |
| Webhooks.RowTakenIff | packages/cli/src/active-workflow-manager.ts:152-216 | the row of another workflow is taken if and only if a webhook with its method and path is stored at or before the first attempt that throws, and lost for good if and only if that throw is rolled back |
| Webhooks.RowsLeftIff | packages/cli/src/active-workflow-manager.ts:152-216 | a workflow without rows has some afterwards if and only if one was stored and the loop went through or was not rolled back |
| Webhooks.InitWrites | packages/cli/src/active-workflow-manager.ts:187-194 | in `init` mode with database errors only, nothing is thrown and the rows are written over the table as far as the database lets them |
| Webhooks.InitTwice | packages/cli/src/active-workflow-manager.ts:152-195 | a second `init` that meets the same errors changes nothing; no key disappears; without collisions no row of another workflow changes |
| Backoff.DelayClosedForm | packages/cli/src/active-workflow-manager.ts:642-645 | the delay after n failures is 1000·2^n ms, at most one day |
| Backoff.DelayBounds | packages/cli/src/constants.ts:68-69 | the delay never decreases, lies between one second and one day, and is one day if and only if n ≥ 17 |
| Backoff.TotalWaitClosedForm | packages/cli/src/active-workflow-manager.ts:640-659 | the time up to the m-th retry is the geometric sum for m ≤ 17 and grows by one day for each retry after that |
| Activation.AddOutcome | packages/cli/src/active-workflow-manager.ts:535-602 | success, triggers in memory, error, queue entry and timers after an activation, each as a condition on what the awaited calls did |
| Activation.AddSucceeds | packages/cli/src/active-workflow-manager.ts:535-602 | an activation succeeds if and only if everything it meets does, and then leaves the workflow with its triggers and webhooks (in `init` mode, as far as the database let them), neither queued nor with an error; all but the rows of every other workflow is as it was |
| Activation.AddFails | packages/cli/src/active-workflow-manager.ts:593-602 | a failed `add` records an error unless it only failed in its very last write, and keeps its queue entry unless everything was set up; webhooks that break off leave no rows, a later failure leaves them, and triggers reached stay in memory |
| Activation.RemoveLeavesNothing | packages/cli/src/active-workflow-manager.ts:724-757 | a removal leaves no error, queue entry or timer of that entry, no row if clearing succeeds and no trigger if closing does; what cannot be cleared stays, and every other workflow is as it was |
| Activation.QueuedHaveErrorsIff | packages/cli/src/active-workflow-manager.ts:366-699 | throughout a run of whole operations every queued workflow has an error if and only if no step clears the error of a queued workflow and no start-up fails in its very last write |
| Bookkeeping.SettledHasError | packages/cli/src/active-workflow-manager.ts:587-595 | an accounted workflow that is queued has an error as soon as no operation on it is pending |
| Bookkeeping.AccountedThroughoutIff | packages/cli/src/active-workflow-manager.ts:366-742 | between the awaits: queued workflows stay accounted for (error stored or being stored, or entry being dropped) throughout a run if and only if none is queued after its error was dropped and no error is dropped after its workflow was queued |
| Bookkeeping.AloneThroughoutIff | packages/cli/src/active-workflow-manager.ts:366-742 | while operations on one workflow do not overlap, that fails if and only if the last write of a start-up does with no error stored |
| Bookkeeping.RemovalOvertakes | packages/cli/src/active-workflow-manager.ts:724-737 | from every state, a removal between the failure of a start-up and its queueing ends with the workflow queued without an error |
| Bookkeeping.LostStays | packages/cli/src/active-workflow-manager.ts:626-699 | such a workflow stays so in every run that does nothing more with it |
| Bookkeeping.HalvesMakeStep | packages/cli/src/active-workflow-manager.ts:366-742 | the whole operations are the runs in which nothing comes between their halves |
| RetryTimers.OneTimerPerWorkflow | packages/cli/src/active-workflow-manager.ts:670-679 | if every live timer is the handle in its workflow's entry, no workflow has two |
| RetryTimers.RetryEndKeepsIff | packages/cli/src/active-workflow-manager.ts:640-659 | the end of a retry leaves an orphan timer if and only if it fails while its workflow is queued with a live timer |
| RetryTimers.NoOrphansOverRuns | packages/cli/src/active-workflow-manager.ts:626-699 | with retries as single steps, in every reachable state each live timer is the handle in its workflow's entry |
| RetryTimers.FailedRetryWaits | packages/cli/src/active-workflow-manager.ts:640-659 | a retry that fails before everything is set up, with its workflow queued, is followed by another one after the next delay |
| RetryTimers.AllWaitOverRuns | packages/cli/src/active-workflow-manager.ts:626-699 | with retries as single steps every queued workflow of every reachable state has a live timer in its entry that retries it in its mode after the delay of the entry, and no retry is left under way |
| RetryTimers.QueuedAreRetried | packages/cli/src/active-workflow-manager.ts:626-699 | from the start, and for all other workflows also between the start and the end of a retry |
| RetryTimers.FailedStartUpWaits | packages/cli/src/active-workflow-manager.ts:445-468 | a start-up that fails leaves a retry in `init` mode to come after one second, unless authorization failed |
| RetryTimers.FailedTriggerWaits | packages/cli/src/active-workflow-manager.ts:366-390 | a failing trigger leaves the workflow inactive, if it can be closed, with an error and a retry to come after one second, and every other one as it was |
| RetryTimers.RemovalQuiets | packages/cli/src/active-workflow-manager.ts:685-699 | removing one entry or all leaves no live timer for the workflow, unless a retry of it is under way |
| RetryTimers.QuietStays | packages/cli/src/active-workflow-manager.ts:626-699 | a workflow that left the queue is never retried in any run that does not queue it again |
| RetryTimers.RetryAfterRemoval | packages/cli/src/active-workflow-manager.ts:638-660 | a retry under way when its workflow is removed makes it active again if and only if it reaches triggers, and leaves rows of it if and only if one was stored and not rolled back; nothing is queued |
| RetryTimers.ReadsMissingIff | packages/cli/src/active-workflow-manager.ts:640-657 | a failed retry reads a missing entry: without one in the queue always, with one if and only if everything was set up and a write after that failed |
| RetryTimers.SingleRetryReadsMissingIff | packages/cli/src/active-workflow-manager.ts:640-657 | in every run with retries as single steps only the second case occurs |
| RetryTimers.DelayAfterFailures | packages/cli/src/active-workflow-manager.ts:640-679 | after queueing and n retries that fail before everything is set up, a live timer of the entry is set to min(1000·2^n, one day) ms |
| ActiveWorkflowManager.ActiveWorkflowManager.AddWebhooks | packages/cli/src/active-workflow-manager.ts:139-222 | the loop over the webhooks and the writes after it leave the table, and throw, as the function behind the all-or-nothing theorem says |
| ActiveWorkflowManager.ActiveWorkflowManager.ClearWebhooks | packages/cli/src/active-workflow-manager.ts:228-261 | every row of the workflow is gone and every other row stays, or it throws and all rows stay |
| ActiveWorkflowManager.ActiveWorkflowManager.Add | packages/cli/src/active-workflow-manager.ts:512-605 | the whole new state of an activation, with the error recorded where it fails |
| ActiveWorkflowManager.ActiveWorkflowManager.Remove | packages/cli/src/active-workflow-manager.ts:708-757 | the whole new state of a removal |
| ActiveWorkflowManager.ActiveWorkflowManager.AddActiveWorkflow | packages/cli/src/active-workflow-manager.ts:432-468 | the start-up step: a failure other than an authorization error queues the workflow, in `init` mode |
| ActiveWorkflowManager.ActiveWorkflowManager.EmitError | packages/cli/src/active-workflow-manager.ts:366-390 | the step of a failing trigger: inactive, with an error, queued |
| ActiveWorkflowManager.ActiveWorkflowManager.AddQueuedWorkflowActivation | packages/cli/src/active-workflow-manager.ts:626-680 | an earlier entry and its timer are replaced by a fresh one with the initial delay |
| ActiveWorkflowManager.ActiveWorkflowManager.RemoveQueuedWorkflowActivation | packages/cli/src/active-workflow-manager.ts:685-690 | the entry and its timer are gone; nothing changes for a workflow that is not queued |
| ActiveWorkflowManager.ActiveWorkflowManager.RemoveAllQueuedWorkflowActivations | packages/cli/src/active-workflow-manager.ts:695-699 | the loop, in any order, clears exactly the timers that entries hold and empties the queue |
| ActiveWorkflowManager.ActiveWorkflowManager.RetryStarted | packages/cli/src/active-workflow-manager.ts:633-639 | a timer that fires is no longer live, and its retry is under way |
| ActiveWorkflowManager.ActiveWorkflowManager.RetryEnded | packages/cli/src/active-workflow-manager.ts:638-660 | the step that ends a retry: success, a longer delay with a new timer, or the missing entry, which it reports exactly when it is read |
| WaitTracking.OneLiveTimer | packages/cli/src/wait-tracker.ts:63-103 | in every run each execution has at most one live timer |
| WaitTracking.RunKeeps | packages/cli/src/wait-tracker.ts:52-150 | however polls, timers, stops and leadership changes overlap, every live timer is the one recorded in the table |
| WaitTracking.ExactWithoutStop | packages/cli/src/wait-tracker.ts:52-103 | in runs without `stopTracking` the ids in the table are exactly those with a live timer |
| WaitTracking.StopTrackingForgets | packages/cli/src/wait-tracker.ts:143-150 | stepping down leaves every entry with a dead timer |
| WaitTracking.ForgottenNeverStarts | packages/cli/src/wait-tracker.ts:79-90 | an execution with a dead timer is never started in any further run that does not stop that very execution |
| WaitTracking.PollSchedulesIff | packages/cli/src/wait-tracker.ts:79-90 | a poll that finds an execution leaves it with a live timer if and only if it has no entry with a dead one |
| WaitTracking.StopExecutionStops | packages/cli/src/wait-tracker.ts:93-99 | a stopped execution has neither entry nor live timer; entries and timers of all others and the polling are as before |
| WaitTracking.StoppedNotStarted | packages/cli/src/wait-tracker.ts:93-99 | in every run after a stop the execution is not started until a poll that found it ends |
| WaitTracking.PollWakes | packages/cli/src/wait-tracker.ts:52-103 | from every state, an execution without an entry that the next poll finds is started by the timer that this sets, whether the poll comes with the start of tracking or from an interval |
| WaitTracking.PollsBalance | packages/cli/src/wait-tracker.ts:56-66 | over every run the polls waiting for the database are those begun less those ended |
| WaitTracking.StartTrackingKeepsIff | packages/cli/src/wait-tracker.ts:52-61 | starting to track leaves the interval to be cleared as the only live one if and only if none was live |
| WaitTracking.StopTrackingSleepsIff | packages/cli/src/wait-tracker.ts:143-150 | stepping down leaves nothing that wakes executions if and only if no poll is waiting and no second interval is live |
| WaitTracking.AsleepStays | packages/cli/src/wait-tracker.ts:143-150 | from then on nothing starts until tracking starts again |
| WaitTracker.WaitTracker.StartTracking | packages/cli/src/wait-tracker.ts:52-61 | the step that sets the interval and begins a poll |
| WaitTracker.WaitTracker.SetTimers | packages/cli/src/wait-tracker.ts:66-90 | the loop over the executions found sets one timer for each that has no entry yet |
| WaitTracker.WaitTracker.StopExecution | packages/cli/src/wait-tracker.ts:93-99 | the timer and the entry are gone; nothing changes for an unknown id |
| WaitTracker.WaitTracker.OnTimer | packages/cli/src/wait-tracker.ts:85-103 | a firing timer removes the entry of its execution and starts it |
| WaitTracker.WaitTracker.StopTracking | packages/cli/src/wait-tracker.ts:143-150 | the loop, in any order, clears exactly the recorded timers and keeps every entry |
| PostProcessing.PostProcessEffect | packages/cli/src/load-nodes-and-credentials.ts:231-253 | one rebuild extends exactly the lists that an eligible node has in a `resource` or `operation` parameter |
| PostProcessing.ManyRebuilds | packages/cli/src/load-nodes-and-credentials.ts:231-253 | after any positive number of rebuilds those lists are extended once and every other list is as it was, also when nodes share lists |
| PostProcessing.WhichListsGrow | packages/cli/src/load-nodes-and-credentials.ts:205-253 | which lists end extended: those of a parameter `resource` or `operation` of a latest-version node with a credential that authenticates or extends an OAuth type; non-empty ones without the option at the end get it there |
| PostProcessing.ExactlyOneCall | packages/cli/src/load-nodes-and-credentials.ts:239-250 | an eligible non-empty list ends with exactly one custom call, at its end |
| RebuildsAmidQueries.GrowGrows | packages/cli/src/credential-types.ts:36-38 | a query only appends to arrays |
| RebuildsAmidQueries.QueryWidensProxy | packages/cli/src/load-nodes-and-credentials.ts:208-224 | as declared, a credential allows proxy authentication if and only if it authenticates or a parent is an OAuth type; once its ancestors were asked for, if and only if it authenticates or any ancestor is |
| RebuildsAmidQueries.LastRebuildDecides | packages/cli/src/load-nodes-and-credentials.ts:231-253 | with any queries between rebuilds, exactly the lists of nodes that are eligible at the last one end extended, once |
| PostProcessing.ToolCopies | packages/cli/src/load-nodes-and-credentials.ts:285-290 | every list of a tool is a new one with the contents of a list of its node |
| PostProcessing.ToolListExtended | packages/cli/src/load-nodes-and-credentials.ts:350-352 | the list of an eligible tool is its own copy, extended once |
| PostProcessing.ToolMeaning | packages/cli/src/load-nodes-and-credentials.ts:285-290 | a tool has the name of its node and `Tool`, its versions and credentials, its parameters with their lists and a description among them, and is no tool itself |
| PostProcessing.ToolsFollow | packages/cli/src/load-nodes-and-credentials.ts:282-290 | there is one tool for each usable node, in the same order |
| PostProcessing.UsableMeaning | packages/cli/src/load-nodes-and-credentials.ts:282-283 | usable nodes are those marked so, in the order of the registry |
| PostProcessing.RegistriesFollow | packages/cli/src/load-nodes-and-credentials.ts:308-348 | the registries of several loaders follow each other in order, and for one credential the later loader wins |
| PostProcessing.OneLoader | packages/cli/src/load-nodes-and-credentials.ts:331-347 | a package names the nodes that a credential supports in full, any other loader names none |
| PostProcessing.AddToolsEffect | packages/cli/src/load-nodes-and-credentials.ts:293-299 | a credential supports a name if and only if it did before, or the name is that of a tool made of a node it supports |
| PostProcessing.ToolSupportedIffOriginal | packages/cli/src/load-nodes-and-credentials.ts:281-301 | with tool names that are new, a credential supports a tool if and only if it supports the node |
| LoadNodesAndCredentials.LoadNodesAndCredentials.CollectFromLoaders | packages/cli/src/load-nodes-and-credentials.ts:303-348 | the lists of nodes and credentials are the concatenation over the loaders; for the supported nodes of one credential the later loader wins |
| LoadNodesAndCredentials.LoadNodesAndCredentials.CreateAiTools | packages/cli/src/load-nodes-and-credentials.ts:281-301 | a tool for each usable node, in order, with its own lists and its support entries |
| LoadNodesAndCredentials.LoadNodesAndCredentials.InjectCustomApiCallOptions | packages/cli/src/load-nodes-and-credentials.ts:231-253 | the loop over the nodes extends the lists as the function says; it throws if and only if an eligible node has an empty list |
| LoadNodesAndCredentials.LoadNodesAndCredentials.PostProcessLoaders | packages/cli/src/load-nodes-and-credentials.ts:303-352 | one rebuild of registries and option lists; it throws if and only if an eligible node or tool has an empty list |

## Left out

- CredentialTypes.CredentialTypes.GetParentTypes: types found on the prototype of the registry object are not modelled; the ghost rank stands for acyclicity, which the program does not check.
- CredentialsOverwrites.CredentialsOverwrites.SetData: overwrite entries that are `null`, keys on the prototype, and errors of `getByName` while loading a class are not modelled; the input table is a value, while the program updates the object it was given.
- CredentialsOverwrites.CredentialsOverwrites.ApplyOverwrite: the order of the fields in the result and what `deepCopy` does inside a field are not modelled; the input stays as it is because it is a value.
- SingleInheritance.TransparentIffLinear: assumes that declared parents are known types, that no declared array names one twice, that the arrays walked start with the declared parents, and that one with two different parents does not end with the one it starts with, which excludes a grown array like `p, q, p`.
- KeyOrder.OrderFreeIffLinear: for a type whose way up to the first branching no other type joins, only one direction is stated (`ChainIsOrderFree`); which of these depend on the key order is decided by how the parents of the branching share ancestors.
- ActiveExecutions.ActiveExecutions.Throttle: queue mode, in which new executions skip throttling but not the release, is not modelled.
- ConcurrencyLimit.RemoveAllEmptiesIff: assumes that queued ids differ; for repeated ids only a bound is stated (`RemoveAllTakesTwoEach`).
- ActiveExecutions.ActiveExecutions.OnSettled: rejections other than a cancellation, which the program throws again, are not modelled: nothing rejects the promise otherwise.
- The rest of `removeAll` for an enabled control, which cancels executions with response promises: `shutdown` never reaches it.
- Execution data, status, response promises and attached workflow executions; telemetry and events of the concurrency control.
- ActiveWorkflowManager.ActiveWorkflowManager.AddWebhooks: what a webhook does at its external service is not modelled, only whether the call succeeds; a roll-back that fails leaves the rows as they are.
- Webhooks.LastRowWins: the upsert replaces the row as a whole; what the object-relational mapper does with optional columns left undefined is not part of this model.
- ActiveWorkflowManager.ActiveWorkflowManager.Add: recording or dropping an error that itself fails is not modelled. Its awaits take no time; the errors and the queue come apart at them in `Bookkeeping`, rows and triggers do not.
- ActiveWorkflowManager.ActiveWorkflowManager.Remove: one step; the await between dropping the error and dropping the entry is in `Bookkeeping`, those around the rows and the triggers are not modelled.
- ActiveWorkflowManager.ActiveWorkflowManager.EmitError: closing the triggers and recording the error, which the program does not wait for, happen at once; `Bookkeeping` records the error later.
- Multi-main publishing, polling functions, trigger responses and error workflows of the workflow manager.
- Wall-clock time: a timer is a live or dead handle, for retries with the delay it was set to; the delays of the wait tracker are not modelled.
- WaitTracker.WaitTracker.StartExecution: what happens after the entry is deleted (loading the data, running the workflow, reporting errors) is one record in the list of started executions.
- PostProcessing.ToolCopies: two parameters of one node that share a list get two copies, where `structuredClone` keeps them shared; the extension of each is the same.
- LoadNodesAndCredentials.LoadNodesAndCredentials.CollectFromLoaders: the registries of loaded classes and of known nodes are not modelled.
- LoadNodesAndCredentials.LoadNodesAndCredentials.PostProcessLoaders: descriptions without parameters and the post-processors called at the end are not modelled; the credentials are those of the moment of the rebuild.
- Loading of node packages, hot reload, licence checks, credential encryption, express wiring: input, output and foreign calls.
