# Verified model of the Kubernetes container service provider

This project models the parts of the provider that carry hard guarantees, and proves those guarantees for
every input, every interleaving of API calls and every run. `dafny verify dfyconfig.toml` checks all of it.

## What is modelled

**Status pipeline.** `Debouncer.dfy` holds the debouncer twice over: as a class whose methods are the
locked sections of `Submit`, of a timer's callback and of `Stop`, and as a state machine (`State`, `Next`)
that every one of those methods is proved to follow. A timer's expiry, its callback taking the lock, the
call of the publish function and its return are separate actions, so a callback may be delayed for any
length of time. `DebouncerSafety.dfy` has what holds in every run, `DebouncerReplacement.dfy` the exact
condition under which a Submit replaces the previous event, `DebouncerTrace.dfy` the exact set and order of
published events when firing is prompt, and `DebouncerLiveness.dfy` what fair infinite behaviours publish.
`Reconcile.dfy` derives a status from a Deployment and its pods, `Monitor.dfy` has the two watch streams
with their indexes, notification queues and handlers, `MonitorConvergence.dfy` the convergence theorem for
finite runs, and `MonitorLiveness.dfy` convergence and publication in infinite behaviours of streams,
handlers and debouncer together, with or without the informers' periodic resyncs.

**Store.** `Store.dfy` has Create and Delete as processes that make one Kubernetes API call per step. Each
call's answer is chosen by an oracle: a failure without effect, or a success with the name, the creation
time and the listing order that the server picks. The class `K8sContainerStore` is the imperative form and
is proved equal to running the process alone. `StoreOperations.dfy` has the guarantees of one operation,
`StoreSystem.dfy` those of any interleaving in which calls on one ID do not overlap, `StoreReads.dfy` what
Get returns after Create, `Pagination.dfy` (with `PageToken.dfy` and `Base64.dfy`) the listing, and
`StoreListing.dfy` joins the two: a listing of any reachable cluster is one Get for each ID. `StoreDetails.dfy`
says, field by field, what Get shows of the cluster's objects.

**Translation.** `Convert.dfy` maps a container spec to a Deployment and a Service and back, `RoundTrip.dfy`
has the normal form a spec takes on that way and the inferred port visibilities, `Units.dfy` the memory
units, `DcmLabels.dfy` the labels and selectors, and `Validation.dfy` the handler's checks.

**Registration.** `Registration.dfy` has the one-shot start, the retry loop with doubling, capped backoff on
64-bit durations and the closing of the done channel, as a state machine and as the class that follows it.

## Where the code promises more than it keeps

- "The previous event is replaced" (internal/monitoring/debouncer.go:28-29) fails when the timer of the
  previous event has expired but its callback has not yet taken the lock: both events are published, and
  the stale callback deletes the newer timer's map entry. `DebouncerReplacement.DelayedCallbackPublishesBoth`
  gives such a run, and `DebouncerReplacement.ReplacementExactly` the condition under which the promise
  holds.
- A container whose memory amount is a multiple of 2^50 bytes is created, but read back with a memory string
  the API does not accept, `1024TB` as `1Pi` for instance (`RoundTrip.PebibyteIsLost`); likewise for zero and
  for amounts beyond 63 bits, as far as Kubernetes prints the quantity canonically.
  `Units.MemoryStringRoundTrip` and `RoundTrip.NormalFormTwice` give the exact conditions.
- A port's visibility is read back faithfully only when entries with equal numbers agree on being exposed
  and internal and external ports are not mixed (`RoundTrip.VisibilityFaithfulExactly`;
  `RoundTrip.MixedPortsAreMisreported` and `RoundTrip.ClashingPortsAreMisreported` for port lists that fail).
- With no pod, Get reports PENDING also for a Deployment for which the monitor publishes FAILED
  (`Reconcile.GetAgreesWithMonitor`; `Reconcile.ScaledToZeroIsReportedDifferently` for one scaled to zero).
- With a backoff setting of 2^62 nanoseconds or more the doubling wraps around (`Registration.BackoffClosedForm`;
  in `Registration.WrapsAround` the 64th wait is negative).
- The latest status is published only if submissions for its instance leave the interval alone: one whose
  submissions, equal or not, always follow each other within the interval is never published
  (`DebouncerTrace.TooOftenIsNeverPublished`, `DebouncerTrace.FrequentSubmitsStarve` for such a run). The exact
  conditions are `DebouncerTrace.StarvedExactly` with prompt firing, `DebouncerLiveness.PublishedUnlessOverridden`
  in general, and `MonitorLiveness.FinalStatusIsPublished` for the monitor with its resyncs.
- List is specified to use Kubernetes continue tokens; the code uses offsets, and the model follows the code.

## Conventions

- API strings that are enumerations, pod phases and Service types are datatypes, with a constructor for an
  unlisted text where the code meets one. A nil pointer or an absent JSON field is `None`.
- `int` conversions to 32 bits (`Kube.ToInt32`) and 64-bit duration arithmetic are written out. Other 64-bit
  integers (times, CPU counts) are unbounded where the code only copies or compares them.
- A Deployment's pod template is represented by its first container, which is the one the code reads.
- Quantities are represented by their value. `Units.QuantityText` is the canonical text Kubernetes documents
  for them; amounts above 2^63 - 1 are capped when parsed.
- The library sort in List is the function `Pagination.SortByName`; with distinct names its result is the
  only sorted order, whatever algorithm finds it.
- `Pagination` takes the two token functions as one value, `PageToken.PageTokens`, so that its proofs use
  only what `PageToken.PageTokensAreSound` states.

## Model

| member | source | states |
|---|---|---|
| Debouncer.Debouncer.constructor | internal/monitoring/debouncer.go:20-26 | a new debouncer has no timers, is not stopped and nothing is in flight |
| Debouncer.Debouncer.Submit | internal/monitoring/debouncer.go:30-54 | a stopped debouncer ignores the event; otherwise the mapped timer is stopped if still armed and a new timer with the full interval is armed and mapped |
| Debouncer.Debouncer.CallbackLocked | internal/monitoring/debouncer.go:42-50 | the callback's locked section: nothing but giving up when stopped, otherwise remove the instance's map entry and count into the wait group |
| Debouncer.Debouncer.CallPublish | internal/monitoring/debouncer.go:52 | the publish function is called after the lock is released, once per entered callback |
| Debouncer.Debouncer.PublishReturned | internal/monitoring/debouncer.go:51-52 | when the publish function returns the wait group is decremented |
| Debouncer.Debouncer.ClearTimers | internal/monitoring/debouncer.go:61-64 | ranging over the map in any order stops exactly the mapped timers and leaves the map empty |
| Debouncer.Debouncer.StopLocked | internal/monitoring/debouncer.go:58-65 | Stop marks the debouncer stopped, cancels the mapped timers still armed and then waits |
| Debouncer.Debouncer.StopReturned | internal/monitoring/debouncer.go:66-67 | a Stop returns only when the wait group is at zero |
| DebouncerSafety.RunKeepsInv | internal/monitoring/debouncer.go:30-67 | the invariant of every run with arbitrarily delayed callbacks: map entries name newest timers, calls are exactly the timers that reached the publish function, the wait group counts the callbacks in flight, and a stopped debouncer has an empty map |
| DebouncerSafety.LatestEventIsNeverLost | internal/monitoring/debouncer.go:38-53 | while not stopped, the newest event of every instance is armed, fired and waiting, in flight or published, and a map entry names its instance's newest timer |
| DebouncerSafety.PublishedAtMostOnce | internal/monitoring/debouncer.go:42-53 | no submission is handed to the publish function twice |
| DebouncerSafety.WaitGroupCountsCallbacks | internal/monitoring/debouncer.go:49-51 | the wait group is at zero exactly when no callback is between its Add and its Done, so it never goes negative |
| DebouncerSafety.NothingPublishedAfterStop | internal/monitoring/debouncer.go:42-67 | in every interleaving with any number of Stops, once one has returned no publish call is running and none ever starts, including for armed timers a stale callback dropped from the map |
| DebouncerReplacement.ReplacementExactly | internal/monitoring/debouncer.go:28-41 | in every run, each accepted Submit replaces its instance's previous event if and only if no Submit arrives while a callback of its instance is under way and has not called the publish function |
| DebouncerReplacement.ReplacedIsNeverPublished | internal/monitoring/debouncer.go:38-41 | an event that was replaced is never handed to the publish function later in the run |
| DebouncerReplacement.DelayedCallbackRun | internal/monitoring/debouncer.go:42-49 | a delayed callback removes the newer timer's map entry although that timer is armed |
| DebouncerReplacement.DelayedCallbackPublishesBoth | internal/monitoring/debouncer.go:28-53 | a concrete run in which an event superseded by a later Submit is published all the same |
| DebouncerTrace.PublishedAreTheSurvivors | internal/monitoring/debouncer.go:30-67 | with prompt firing, for every trace the publish calls of an instance are, in submission order, exactly its submissions before every Stop whose deadline has passed and that no Submit of the instance and no Stop overrode before it, each with its own payload; while timers are due, an event was published iff it survives so and its timer is not due; the timer map is always exactly the set of armed timers |
| DebouncerTrace.StarvedExactly | internal/monitoring/debouncer.go:30-67 | with prompt firing and nothing due, an instance was never published iff each submission whose deadline was reached had been overridden before it |
| DebouncerTrace.TooOftenIsNeverPublished | internal/monitoring/debouncer.go:38-41 | in every trace in which each submission of an instance is followed by another before its deadline, the instance is never published |
| DebouncerTrace.FrequentSubmitsStarve | internal/monitoring/debouncer.go:38-41 | even with prompt firing, an event submitted again at every tick is never published with an interval of two ticks or more |
| DebouncerTrace.TraceAgrees | internal/monitoring/debouncer.go:30-54 | along every trace each timer's phase and deadline are those the trace determines for its submission |
| DebouncerTrace.TraceIsRun | internal/monitoring/debouncer.go:42-53 | prompt firing is a schedule of the debouncer with separate expiry and lock steps |
| DebouncerLiveness.PublishedUnlessOverridden | internal/monitoring/debouncer.go:30-67 | in every fair infinite behaviour, from any moment on, an event is handed to the publish function iff it was not cancelled or discarded and no later Submit of its instance stops its armed timer and no later Stop comes before its callback's lock |
| DebouncerLiveness.LatestEventIsPublished | internal/monitoring/debouncer.go:42-53 | in every fair infinite behaviour an event that is not superseded and not stopped is eventually handed to the publish function |
| DebouncerLiveness.WaitGroupDrains | internal/monitoring/debouncer.go:57-67 | in every fair behaviour in which each publish call returns, once a Stop has taken its locked section the wait group reaches zero and stays there, so every waiting Stop can return |
| DebouncerLiveness.StopsReturn | internal/monitoring/debouncer.go:57-67 | in such a behaviour every Stop that is waiting at some moment has returned at a later one |
| Reconcile.LookupPod | internal/monitoring/monitor.go:216-241 | the loop returns a listed pod of the greatest priority, the first of them, and nothing iff there is none |
| Reconcile.ReportTellsObjects | internal/monitoring/reconcile.go:13-61 | for every Deployment and pod: a report is made iff there is no pod or its phase has a status; the status is the phase's, or DELETED, FAILED or PENDING by the Deployment; the message is a failed pod's first container reason, waiting first, or the phase, or what the Deployment's replicas and conditions say |
| Reconcile.StatusWithoutPod | internal/monitoring/reconcile.go:13-46 | without a pod the report is DELETED iff the Deployment is gone, FAILED iff it is scaled to zero or has a true ReplicaFailure condition, PENDING otherwise, and is always published |
| Reconcile.WorstStatusIsPublished | internal/monitoring/monitor.go:216-256 | for every non-empty list of pods the published status has the greatest severity present, and nothing is published iff every pod succeeded or is in an unrecognised phase |
| Reconcile.IndexOrderIsIrrelevant | internal/monitoring/monitor.go:225-240 | the published status does not depend on the order in which the index returns the pods |
| Reconcile.MonitorIsAtLeastAsSevereAsGet | internal/kubernetes/store.go:75-144 | whenever Get answers, for any pods in any order, the monitor's status for the same objects is at least as severe as the status Get reports |
| Reconcile.GetAgreesWithMonitor | internal/kubernetes/store.go:86-105 | with at most one pod, Get and the monitor agree on the status exactly unless there is no pod and the Deployment reports a failure |
| Reconcile.ScaledToZeroIsReportedDifferently | internal/monitoring/reconcile.go:13-46 | a Deployment scaled to zero and without pods is FAILED for the monitor and PENDING for Get |
| Monitor.StatusMonitor.ReconcileAndSubmit | internal/monitoring/monitor.go:180-189 | unless stopped, a publishable report arms one new timer for the instance, whose event carries the instance's ID and the status and message its objects tell; anything else leaves the debouncer unchanged |
| Monitor.StatusMonitor.HandleDeployNotice | internal/monitoring/monitor.go:118-141 | a Deployment notification submits what the Deployment, none after a deletion, and the first worst indexed pod tell; objects without an instance label are ignored |
| Monitor.StatusMonitor.HandlePodNotice | internal/monitoring/monitor.go:143-167 | a pod notification submits what the indexed Deployment and the event's own pod tell, a deletion what the Deployment and the first worst remaining pod tell |
| MonitorConvergence.RunKeepsInv | internal/monitoring/monitor.go:118-189 | the invariant of every run of the two streams that relates queued notifications, indexes, last handler inputs and the newest submission |
| MonitorConvergence.LastStatusIsFinal | internal/monitoring/monitor.go:118-189 | once both queues are empty, the last handler call for an instance reconciled its final Deployment and final pod, and the latest event submitted carries its ID and the status and message these objects tell, whenever they tell one; with at most one Deployment at any time and at most one pod at the end |
| MonitorLiveness.FinalStatusIsComputed | internal/monitoring/monitor.go:118-189 | in every infinite behaviour with fair handlers, once an instance's objects have settled, its last reconciled inputs become and stay the final Deployment and pod, and the newest submission carries the status and message they tell, although other instances change and resyncs repeat the unchanged objects |
| MonitorLiveness.FinalStatusIsPublished | internal/monitoring/monitor.go:52-67 | with a fair runtime as well, and unless a Stop comes, from some moment on the newest submission carries the final status and is handed to the publish function iff no resync submits the same status again while that very submission's timer is armed; without resyncs it always is |
| MonitorLiveness.PublishedOrStarved | internal/monitoring/monitor.go:52-67 | so the final status is published again after any moment, unless a Stop comes or every submission from that moment on is itself re-submitted over while armed |
| MonitorLiveness.QuietIntervalPublishes | internal/monitoring/monitor.go:52-67 | with prompt firing, and unless a Stop comes, every submission of the settled status that none follows before its deadline is published, so resyncs further apart than the interval publish it each time |
| Store.K8sContainerStore.Create | internal/kubernetes/store_create.go:51-106 | Create makes exactly the calls of the Create process, with the same effect and result under every oracle |
| Store.K8sContainerStore.Delete | internal/kubernetes/store_delete.go:11-42 | Delete makes exactly the calls of the Delete process, its loop removing the Services in the listed order before the Deployment |
| Store.SelectActivePod | internal/kubernetes/store.go:130-144 | the first running pod if there is one, otherwise the first of the latest created ones |
| StoreOperations.CreateIsAllOrNothing | internal/kubernetes/store_create.go:51-106 | success adds exactly one Deployment, and one Service iff some port is exposed; an error changes nothing, except that a failed rollback leaves precisely the one Deployment this call made |
| StoreOperations.CreateMakesWhatIsAsked | internal/kubernetes/convert.go:256-362 | on success the stored Deployment has one replica of the spec's container, the configured namespace, the provider's and the user's labels; the Service has one TCP entry per exposed port in order and the configured type iff some port is external; the returned container is PENDING with the spec in the configured namespace |
| StoreOperations.CreateErrors | internal/kubernetes/store_create.go:57-103 | Create fails with the error of the call that failed, an existing name being reported as a conflict, and succeeds iff the check, the Deployment call and, if needed, the Service call succeed |
| StoreOperations.CreatedObjectsAreSelected | internal/dcm/labels.go:23-45 | the created objects are selected by their own instance selector only and by the list selector, and the selectors of both match the pod template |
| StoreOperations.DuplicateIdIsRejected | internal/kubernetes/store_create.go:57-66 | the duplicate conflict is reported exactly when the check answers and a Deployment with the ID exists |
| StoreOperations.DeleteIsCompleteAndFramed | internal/kubernetes/store_delete.go:11-42 | success removes the ID's one Deployment and all its Services and nothing else; a failure keeps every Deployment; several Deployments of the ID give Conflict without any change |
| StoreOperations.DeleteErrors | internal/kubernetes/store_delete.go:11-42 | for an ID with one Deployment, Delete succeeds iff none of its calls fails, and otherwise answers with the first failing call's error |
| StoreOperations.DeletedIsNotFound | internal/kubernetes/store.go:46-60 | after a successful Delete, Get and a further Delete report NotFound |
| StoreOperations.DeleteIsResumable | internal/kubernetes/store_delete.go:19-41 | after any failed Delete a retry whose calls answer removes the container |
| StoreOperations.FailedRollbackIsRecoverable | internal/kubernetes/store_create.go:87-101 | the Deployment a failed rollback leaves is removed by a later Delete, which restores the cluster as it was before the Create |
| StoreSystem.StoreInvariantUnderFaults | internal/kubernetes/store_create.go:57-103 | over all interleaved runs with arbitrary failures, each ID has at most one Deployment and at most one Service, and no Service is without a Deployment of its ID |
| StoreSystem.IdsAreIndependent | internal/kubernetes/store_create.go:58-94 | in every interleaving at API-call granularity in which calls on one ID do not overlap, an ID's objects, progress and results are those of a run of its own calls alone |
| StoreSystem.StepParts | internal/kubernetes/store_delete.go:20-41 | one call of an operation changes no other ID's objects and does the same when its own ID's objects are the whole cluster |
| StoreSystem.CallsAreTheOperation | internal/kubernetes/store_create.go:51-106 | a run in which only one operation makes its calls ends like that operation alone |
| StoreReads.CreateThenGet | internal/kubernetes/store_get.go:10-17 | whenever Create succeeds and Get answers, Get returns the spec's normal form under the generated name with the inferred port visibilities, and Service details iff some port is exposed |
| StoreReads.EnrichKeepsSpec | internal/kubernetes/convert.go:149-213 | pods and Services change no image, metadata, process or resources, and only a Service changes port visibilities |
| StoreDetails.ContainerShowsObjects | internal/kubernetes/store.go:64-144 | for every Deployment, pods and Services: a conflict iff there are three pods or more, or two outside a rollout; otherwise the container shows the Deployment's fields, the active pod's status, address and latest transition, and the Service's details and port visibilities |
| StoreDetails.GetShowsCluster | internal/kubernetes/store_get.go:10-17 | Get is NotFound iff the ID has no Deployment, a conflict if it has several, and otherwise shows the one Deployment with the ID's pods and Services |
| RoundTrip.DeploymentRoundTrip | internal/kubernetes/convert.go:37-147 | for every spec, reading back the built Deployment gives the spec's normal form, and the Deployment's selector matches its own pod template |
| RoundTrip.NormalFormTwice | internal/kubernetes/convert.go:256-331 | normalising twice equals once iff both stored memory amounts are zero, or whole numbers of mebibytes but not of pebibytes |
| RoundTrip.PebibyteIsLost | internal/units/convert.go:45-56 | the API's 1024TB reads back as 1Pi, which is rejected and reads back as zero |
| RoundTrip.VisibilityIsTheJoin | internal/kubernetes/convert.go:167-223 | a port is reported not exposed iff no entry with its number is exposed, otherwise external iff any port of the spec is external |
| RoundTrip.VisibilityFaithfulExactly | internal/kubernetes/store_create.go:17-47 | the reported visibilities are the spec's iff no numbers clash and internal and external are not mixed |
| RoundTrip.MixedPortsAreMisreported | internal/kubernetes/convert.go:169-223 | an internal port next to an external one is reported as external |
| RoundTrip.ClashingPortsAreMisreported | internal/kubernetes/convert.go:169-223 | an unexposed entry with the number of an exposed one is reported as exposed |
| Convert.PortsWithVisibility | internal/kubernetes/store_create.go:17-28 | the loop returns exactly the ports whose visibility is not none, in order |
| Convert.EnrichService | internal/kubernetes/convert.go:169-213 | collecting the target ports and updating the container's ports in place gives each targeted port the inferred visibility and leaves the others |
| Convert.LatestTransitionTime | internal/kubernetes/convert.go:226-253 | the loop returns the greatest non-zero transition time, and nothing iff there is none |
| Validation.IgnoredErrorsAreSafe | internal/kubernetes/convert.go:262-283 | resources pass validation iff both memory strings convert, in every table order, to what the Deployment stores, and requests do not exceed limits for memory and CPU |
| Validation.AcceptedExactly | internal/handlers/container/validation.go:17-54 | a spec is accepted iff the ID is not health, both memory bounds convert, no minimum exceeds its maximum, and no label key is one of the provider's three |
| Validation.NormalFormOfValidSpec | internal/handlers/container/validation.go:24-54 | for a validated spec the normal form keeps image, CPU, command, arguments, environment, port numbers and user labels |
| Units.IterationOrderIsIrrelevant | internal/units/convert.go:36-56 | both unit conversions give the same result in every iteration order of their tables |
| Units.ConvertMemoryOfNumeral | internal/units/convert.go:34-43 | digits with an API unit convert to their value times the unit, capped at the largest quantity; no digits count as zero |
| Units.Megabytes | internal/units/convert.go:20-43 | MB stands for 2^20 bytes |
| Units.Gigabytes | internal/units/convert.go:20-43 | GB stands for 2^30 bytes |
| Units.Terabytes | internal/units/convert.go:20-43 | TB stands for 2^40 bytes |
| Units.OtherUnitsAreRejected | internal/units/convert.go:36-43 | a memory string is rejected for its unit iff it ends with none of the three |
| Units.MemoryRoundTrip | internal/units/convert.go:45-56 | a quantity survives printing, mapping to an API string and converting iff it is a whole number of mebibytes but not of pebibytes; otherwise the raw text comes back, which is rejected |
| Units.MemoryStringRoundTrip | internal/units/convert.go:36-56 | every API memory string, printed canonically by Kubernetes, survives the round trip iff its amount is positive, below 2^63 and not a multiple of 2^50; printed as it was parsed, the string itself comes back |
| Units.ParsedTextComesBack | internal/units/convert.go:45-56 | a quantity that still prints the text it was parsed from maps back to the API string it came from, for every numeral and unit |
| DcmLabels.MergedLabels | internal/kubernetes/labels.go:12-17 | whatever the user's labels, the merged ones match the provider's selector and exactly the object's own instance selector, and the user's non-reserved labels can be read back |
| DcmLabels.MergedAreStamped | internal/dcm/labels.go:6-30 | the merged labels are the provider's three, with their keys and values, and the user's under every other key |
| DcmLabels.SelectorsRead | internal/dcm/labels.go:32-45 | which labels the two selectors demand, and which labels count as the user's |
| PageToken.TokenRoundTrip | internal/kubernetes/store_list.go:70-95 | the token of every offset decodes to that offset and is not empty |
| PageToken.AcceptedTokens | internal/kubernetes/store_list.go:78-95 | for every token, forged ones included, whether it decodes and to which offset, never a negative one |
| Base64.RoundTrip | internal/kubernetes/store_list.go:71 | decoding an encoded byte string in the standard alphabet with padding gives it back |
| Base64.FullGroup | internal/kubernetes/store_list.go:71 | three bytes are encoded as the four base-64 digits of their 24 bits, most significant first |
| Base64.LineBreaksAreIgnored | internal/kubernetes/store_list.go:83 | a line break anywhere in a token makes no difference |
| Base64.SpareBitsOfTwo | internal/kubernetes/store_list.go:83 | the bits that a padded group leaves over are not looked at |
| Pagination.List | internal/kubernetes/store_list.go:25-76 | the sorted, sliced page and the next token for every size and token, with errors in the code's order and all slices in range |
| Pagination.EntriesFail | internal/kubernetes/store_list.go:55-65 | a page fails iff one of its entries does, with the first such error |
| Pagination.PageHolds | internal/kubernetes/store_list.go:25-73 | a page holds the entries from the token's offset on, as many as asked for, or 50 when zero or less are asked for, or all that are left, and a next token iff some are left |
| Pagination.FetchOrderIsIrrelevant | internal/kubernetes/store_list.go:42-44 | the order in which the Deployments are fetched does not change the sorted list |
| Pagination.PaginationIsComplete | internal/kubernetes/store_list.go:25-76 | following the tokens from the empty one with any page sizes ends and returns every Deployment's entry exactly once, in ascending lexicographic order of names |
| Pagination.PageCount | internal/kubernetes/store_list.go:46-73 | a fixed page size k lists n Deployments in the least number p of pages with p at least 1 and n at most p times k |
| Pagination.EntryIsGet | internal/kubernetes/store_list.go:55-65 | with one Deployment for the ID, a listed entry is what Get returns |
| StoreListing.RunKeepsCatalogue | internal/kubernetes/store_create.go:51-106 | in every interleaved run, each Deployment is stored under its own name, and List's selector finds it iff some ID's selector does |
| StoreListing.ListingIsAllGets | internal/kubernetes/store_list.go:25-76 | on every cluster that interleaved Creates and Deletes with failures can reach, and that then stays unchanged, following the tokens returns, exactly once for each ID with a Deployment, what Get returns for it |
| StoreListing.ListingFromEmpty | internal/kubernetes/store_list.go:25-76 | the same for everything interleaved Creates and Deletes can make of a cluster without Deployments and Services |
| Registration.Registrar.Start | internal/registration/registration.go:133-140 | the Start transition: the first Start launches the goroutine, any other changes nothing |
| Registration.Registrar.Run | internal/registration/registration.go:148-206 | alone, the goroutine goes on while the answers are neither 200, 201 nor 400 to 499 and the waits are not cancelled, ends at the first that is, has succeeded iff that was 200 or 201 and given up iff it was 400 to 499, and closes the done channel once; its k-th wait is the k-th backoff |
| Registration.RunKeepsInv | internal/registration/registration.go:131-206 | in every run with any number of Starts at any time, one goroutine is launched iff Start was called, the done channel is closed exactly when it has ended and once, and its k-th wait is the k-th backoff |
| Registration.OneRegistration | internal/registration/registration.go:131-206 | from a new registrar on: one goroutine iff Start was called, the done channel closed once, when it has ended, and the k-th wait is the k-th backoff |
| Registration.NothingAfterTheEnd | internal/registration/registration.go:148-206 | once the loop has returned, no request is made and no wait begun in any later state, and the done channel is closed at most once |
| Registration.NothingFollows | internal/registration/registration.go:148-206 | in every run, no request and no wait follows a 200, 201 or 4xx answer or a wait cut short by cancellation |
| Registration.DrivenIsRun | internal/registration/registration.go:148-180 | what the goroutine does alone is a run of the machine |
| Registration.BackoffClosedForm | internal/registration/registration.go:173-176 | with positive settings every wait is the initial one at first and then min(initial times 2^k, max) iff both settings are below 2^62 |
| Registration.DoubledWraps | internal/registration/registration.go:173 | doubling a duration is exact modulo 2^64 and stays within 64 bits |
| Registration.WrapsAround | internal/registration/registration.go:173-176 | from one nanosecond with a cap of 2^62, the 63rd wait is the cap and the 64th is negative |
| Registration.WaitsGrow | internal/registration/registration.go:173-176 | waits after the first never exceed the cap and never decrease when the first is within it |

## Left out

- HTTP server, middleware, OpenAPI validation, error responses and generated code: plumbing around the modelled parts.
- NATS publishing and its bounded retry, CloudEvent encoding, logging, configuration loading, Kubernetes client construction.
- client-go's informers and the API server beyond what is assumed of them: an index updated before its notifications are queued in order, no notification left unhandled for ever, selection by labels, failed calls without effect, immediate deletion.
- Overlapping calls on one ID: the list-then-create check is not atomic, so duplicates are possible there.
- Interleaving inside a handler between reading the index and submitting, and a change of an object's instance label while it exists.
- Pagination while the cluster changes, a limitation the code documents.
- Failing API calls in Get and inside a page of List: they return the error without effect.
- The imperative form of `buildDeployment`, `buildService` and `enrichWithPod`: they are functions here, so aliasing of the label maps and of the spec's slices is not captured.
- Units.ConvertMemoryOfNumeral: number parts with a sign or a fraction are treated as malformed, because the API's pattern admits digits only and Kubernetes' quantity parser is not part of this model.
- Which of its two texts a quantity prints, the canonical one or the one it was parsed from, is Kubernetes' choice; the other theorems about memory take the canonical one.
- Additional properties of the API's JSON objects, which no modelled function reads.
- Truncation of long generated names by the API server: the model takes any name the server chooses.
- The stopping and draining of the wait timer on cancellation in the registration loop.
