# Verified models of dubbo-kubernetes

A Dafny 4.11 model of the parts of this repository whose correctness is hardest to see by reading:

- **krt**, the engine of derived collections (`pkg/kube/krt`): objects are transformed into other
  objects, transformations fetch from further collections, and everything is kept up to date by
  events that are handled late, in batches, against newer state.
- **queues** (`pkg/queue`): the work queue behind krt, and the delay queue with its heap.
- **xDS** (`pkg/xds`): what a connection remembers of a client's subscriptions, and when it answers.
- **operator values** (`operator/pkg/values`, `operator/pkg/render`): deep merge, reading and writing
  by path, and the precedence of profile, files, flags and compiled defaults.
- **Telemetry and host names** (`pkg/config`): layered resolution, and wildcard host algebra.

`dafny verify dfyconfig.toml` checks everything.

## How it is laid out

| files | contents |
|---|---|
| `Options`, `Sequences` | optional values, and chains of states and steps, shared by the modules |
| `KrtTypes`, `KrtSets` | objects, events, and strict replay: an event that contradicts what the listener has seen is refused |
| `KrtFilter`, `KrtFetch`, `KrtIndex`, `KrtDependencies` | filters, Fetch, secondary indexes, and the reverse index of dependencies against the scan it replaces |
| `KrtHandlers`, `KrtCollection`, `KrtStatic` | the collections as classes: every method keeps the invariant, and its events replay the old contents into the new |
| `KrtSystem`, `KrtAccount`, `KrtConvergence`, `KrtSync`, `KrtProgress` | a collection among its parent, its dependencies, its queue and its handlers as a state machine, and what holds in all its behaviours, told of its steps |
| `KrtJoin`, `KrtMergedJoin`, `KrtJoinSystem` | joined collections, with and without merging; the merged join among its inner collections and its handlers as a state machine |
| `KrtJoinEvents`, `KrtJoinFetch`, `KrtJoinExamples` | what the events of a join, with and without merging, tell a collection derived from it, and runs that fall short |
| `KrtProcessor` | the pipeline from a collection to one handler |
| `WorkQueue`, `DelayHeap`, `DelayQueue`, `Xds` | the protocols outside krt |
| `Values`, `Writes`, `Render`, `RenderOrder`, `Telemetry`, `Host` | configuration: trees, what two settings in turn change, the operator's layers, the order it leaves open |

The main results are `KrtConvergence.Convergence` and `KrtProgress.Settles` (with `KrtSync.SyncedMeansHandled`,
`KrtSync.QuietMeansSynced` and `KrtSync.OutputsCanBeInputs`, which let collections be chained), `KrtDependencies.ChangedCoversNaiveIff`,
`KrtJoinSystem.MergedReplay`, `KrtProcessor.DeliveredInOrder` and `KrtProcessor.SyncedOnceAfterInitial`,
`KrtProcessor.ClosesTwiceIffEarly`, `DelayQueue.DelayPromises`, `WorkQueue.QueuePromises`,
`Xds.SubscriptionRefinesSimple`, `Xds.AnsweredIff` and `Xds.NoResponseLoop`, `Values.MergeIsAssociativeIff`, `Values.MergeAt`,
`Values.SetThenGetIff`, `Render.UserValueSurvives`, `Render.ProfileUnderUser`, `RenderOrder.TranslationOrderIff`,
`Telemetry.Resolve` and `Telemetry.SortIgnoresOrderIff`.

State machines keep records of what happened. The results above are not stated of those records but of the steps of
a run: what was pushed, distributed, requested or changed is read off the list of steps.

## What is assumed

- A transformation is deterministic, reads only its input and what it fetches, and two inputs never
  produce the same output key. It is any strategy that decides on the next fetch from the results
  so far. The filters used on one collection are all by key or index, or none is, which is where the
  reverse index misses nothing (`KrtDependencies.ChangedCoversNaiveIff`). Only `KrtProgress` also asks
  that a transformation returns: every fetch brings it closer, by some measure, whatever the fetch gives.
- Two objects are equal in the model when krt's `Equal` says so. Keys, namespaces, labels and selectors
  are fields of the object; all else is opaque.
- Index extractors are any functions. Events of a parent or a dependency may come late, but those of one
  source come in order.
- Clocks, the network, files, Kubernetes and the choice among map iteration orders are parameters or
  nondeterministic steps.

## Where a promise fails

Each of these has a concrete input or run, and an exact condition, for all inputs, under which the promise holds.

- Mixing key- or index-filtered dependencies with others on one collection makes the reverse index miss
  changes: `KrtDependencies.MixedDependenciesMissChanges` and `ChangedCoversNaiveIff`. Where only keys are
  extracted, the condition can be read off the registered filters: `KrtDependencies.KeyedCoversNaiveIff`.
- `Reset` of a static collection with a repeated key sends events that do not replay:
  `KrtStatic.ResetWithRepeatedKey` and `KrtStatic.StaticList.Reset`.
- A join that does not check for overlap lists a key once per collection that has it: `KrtJoin.QuickList`,
  and `KrtJoinExamples.UncheckedJoinRepeats`.
- A join without merging passes on a Delete of a key that another collection still holds, which a collection
  derived from the join takes for the end of the key: `KrtJoinExamples.SharedDeleteMisleads` and
  `KrtJoinEvents.DeletesPassIff`, with the exact conditions on any batch in
  `KrtJoinEvents.PassedOnTellsParentIff` and `KrtJoinEvents.PassedOnTellsDependentIff`.
- A merged join whose cache already holds a key sends a new handler an event that does not replay:
  `KrtJoinExamples.CachedKeyDoesNotReplay` and `KrtJoinSystem.FirstEventReplaysIff`.
- A key that a handler of a merged join was told about, and that is then lost by an inner collection the handler
  is not registered with yet, may leave the handler stale: `KrtJoinExamples.DisturbedHandlerIsStale` and
  `KrtJoinSystem.MergedReplay`.
- A transformation that fetches from a merged join is not shown the object that went away when the join had
  not told it of that object: `KrtJoinFetch.UntoldChangeIsHidden` and `KrtJoinFetch.EventShowsChangeIff`.
- The synced channel of a handler can be closed twice when the parent is reported synced before the first
  batch was handled: `KrtProcessor.DoubleCloseExample` and `KrtProcessor.ClosesTwiceIffEarly`.
- The delay queue appends without sifting when it was idle; a pusher that takes the direct way in between
  lets a due task wait behind a later one: `DelayQueue.LateTaskIsReachable`. Such an append keeps the heap order
  exactly on the condition of `DelayHeap.PlainAppendKeepsHeapIff`, and the queue is still drained soonest first
  exactly on that of `DelayHeap.AppendedDrainsInOrderIff`, which is weaker. Over runs, `DelayQueue.SoonestFirstIff`
  decides it for the dispatcher's next take, unless a further pusher comes in between.
- `MergeFrom` is not associative when a scalar in the middle cuts off a map: `Values.GroupingMatters` and
  `Values.MergeIsAssociativeIff`. A base value of the named type `Map` is replaced and not merged into:
  `Values.NamedBaseLosesKey` and `Values.NamedBaseMergesIff`.
- `SetPath` through a null writes to a map nothing refers to, so the value is lost without an error:
  `Values.WritePastNullIsLost` and `Values.SetThenGetIff`.
- The order in which `Resolve` applies resources depends on the order of its input when two resources differ but
  share creation time, namespace and name: `Telemetry.ClashDependsOnOrder` and `Telemetry.SortIgnoresOrderIff`.
- A top-level `repo` or `tag` whose text holds an equals sign is carried to a path made of the whole text:
  `Render.CarriedIff`. The outcome can then depend on the order in which Go visits the two:
  `RenderOrder.StrayValueMakesOrderMatter` and `RenderOrder.TranslationOrderIff`. Without such a value it never
  does: `RenderOrder.TranslationOrderIsIrrelevant`.

Where code and comments disagree, the model follows the code: the comment on `DelayQueueBuffer` says a push
blocks while the buffer is full, and the code pushes to the heap instead.

## Model

| member | source | states |
|---|---|---|
| KrtFilter.MatchSharesReverseKey | pkg/kube/krt/filter.go:59-70 | an object that matches a key- or index-filter yields, through the filter's extractor, one of the filter's reverse keys |
| KrtFilter.MatchesIff | pkg/kube/krt/filter.go:187-245 | an object matches if and only if each part of the filter that is given holds of it: key, index, namespace, every label of the filter on the object, every entry of the object's selector among the labels selected by, non-empty where asked, and the generic part |
| KrtFilter.SelectChangeIsMatched | pkg/kube/krt/filter.go:187-245 | if a change of a collection changes what a filter selects, an object that left, came or was replaced matches the filter |
| KrtDependencies.DependencyState.Update | pkg/kube/krt/collection.go:61-88 | the loops in place compute the stated new dependencies, reverse index and extractors |
| KrtDependencies.DependencyState.Delete | pkg/kube/krt/collection.go:90-108 | likewise when an input goes |
| KrtDependencies.DependencyState.IsObjectChanged | pkg/kube/krt/collection.go:162-179 | true exactly when a dependency on the source matches one of the event's objects |
| KrtDependencies.DependencyState.ChangedInputKeys | pkg/kube/krt/collection.go:110-160 | the loops over events, extractors and inputs compute the stated set of changed inputs |
| KrtDependencies.RunIsComplete | pkg/kube/krt/collection.go:61-108 | after any run of updates and deletes every indexed dependency is found under each of its reverse keys |
| KrtDependencies.ChangedCoversNaiveIff | pkg/kube/krt/collection.go:110-179 | the reverse index finds all the simple scan finds, on every list of events, if and only if no dependency is in the blind spot of a registered extractor |
| KrtDependencies.KeyedCoversNaiveIff | pkg/kube/krt/collection.go:110-179 | where only keys are extracted and no filter has a generic part, that is so if and only if no extractor is registered or every filter that can match something is by key or index |
| KrtDependencies.ReverseIndexIsSound | pkg/kube/krt/collection.go:61-179 | after any run, with all dependencies on the source indexed, nothing is missed, and what is found beyond that still depends on the source and passes the rest of its filter |
| KrtDependencies.UnindexedIsExact | pkg/kube/krt/collection.go:151-157 | with no indexed dependency on the source ever, the result is exactly the simple scan's |
| KrtDependencies.MixedDependenciesMissChanges | pkg/kube/krt/collection.go:118-157 | one key-filtered and one unfiltered dependency: the scan sees an added object and the reverse index does not, even after the indexed input is gone |
| KrtIndex.UpdateAgrees | pkg/kube/krt/collection.go:242-259 | an index that agrees with a scan of the outputs still does after any event the outputs can replay |
| KrtIndex.Build | pkg/kube/krt/collection.go:368-389 | an index created late agrees with a scan from the start |
| KrtIndex.Lookup | pkg/kube/krt/collection.go:225-240 | lists exactly the objects whose extracted keys contain the one asked for, each once |
| KrtIndex.IndexesFollow | pkg/kube/krt/collection.go:519-521 | one event keeps all indexes of a collection in agreement at once |
| KrtFetch.CandidatesThenRest | pkg/kube/krt/fetch.go:73-97 | listing by key, by index or in full and then applying what remains of the filter selects what the whole filter matches |
| KrtFetch.Fetch | pkg/kube/krt/fetch.go:46-107 | returns each object of the collection that meets every part of the filter, once, and no other, whichever way the objects are found |
| KrtHandlers.HandlerSet.Distribute | pkg/kube/krt/processor.go:114-121 | handlers that followed the old objects follow the new ones after a batch that replays |
| KrtHandlers.HandlerSet.Register | pkg/kube/krt/collection.go:728-752 | a new handler, with or without an initial batch, follows the collection; no other is told anything |
| KrtHandlers.HandlersHear | pkg/kube/krt/processor.go:114-121 | every handler's replay moves from the old objects to the new by one batch sent once to each |
| KrtCollection.AppliedKeepsPartition | pkg/kube/krt/collection.go:439-529 | recomputing or dropping an input keeps mappings, inputs and outputs a partition of the outputs by input |
| KrtCollection.PartitionMeansDisjointUnion | pkg/kube/krt/collection.go:763-779 | in such a state mapping values are disjoint and their union is the set of output keys |
| KrtCollection.AppliedIsLocal | pkg/kube/krt/collection.go:439-529 | an item changes nothing that belongs to another input |
| KrtCollection.ManyCollection.HandleChangedPrimaryInputEvents | pkg/kube/krt/collection.go:416-541 | the locked loop keeps partition, indexes, dependencies and handlers; its events replay the old outputs into the new, for any order of map iteration, and update nothing to an equal object |
| KrtCollection.ManyCollection.ReplaceOutputs | pkg/kube/krt/collection.go:484-527 | in any order of keys, outputs under the old keys become the results, and the events say so without idle updates |
| KrtCollection.ManyCollection.RemoveOutputs | pkg/kube/krt/collection.go:442-461 | in any order of keys, the outputs go, and the events say so |
| KrtCollection.ManyCollection.Index | pkg/kube/krt/collection.go:368-389 | creating an index keeps the invariant, and a taken name changes nothing |
| KrtCollection.ManyCollection.RegisterBatch | pkg/kube/krt/collection.go:728-752 | a handler registered at any time follows the outputs from then on |
| KrtSystem.RunIsUnique | pkg/kube/krt/collection.go:421-434 | running a transformation from scratch in a given world, each fetch finding what meets its filter there, has one outcome |
| KrtSystem.TraceRuns | pkg/kube/krt/collection.go:421-434 | what the engine stores for a computation whose fetches are current is what a run from scratch leaves: under each key the last output with that key, and nothing else |
| KrtSystem.EveryOutputIsThere | pkg/kube/krt/collection.go:430-432 | in outputs from scratch every object a run returns has its key, and there is the last one it returns under it |
| KrtAccount.InputsAreRead | pkg/kube/krt/collection.go:394-702 | the parent and the fetched collections of a state are those of the last changes among the steps |
| KrtAccount.HandlerIsRead | pkg/kube/krt/processor.go:114-121 | a handler holds the existing objects it asked for, or was taken to know, and then the events of every commit since |
| KrtConvergence.BehaviorKeeps | pkg/kube/krt/collection.go:394-541 | in every behaviour each input's outputs are up to date, being recomputed, or announced as stale by something still on its way |
| KrtConvergence.Convergence | pkg/kube/krt/collection.go:394-702 | in every behaviour, whenever nothing is on its way, queued or in work, an object is an output if and only if a run of the transformation from scratch, on an object of the parent as last changed, in the world as last changed, leaves it; and what each handler was sent since it was added replays to the outputs |
| KrtSync.SyncedMeansHandled | pkg/kube/krt/collection.go:621-656 | when a collection reports synced, for every key its parent held at registration a step committed an item about it |
| KrtSync.QuietMeansSynced | pkg/kube/krt/collection.go:621-656 | in every behaviour a collection that has come to rest reports synced |
| KrtSync.NeverStuck | pkg/kube/krt/collection.go:394-702 | in every reachable state that is not quiet the machinery itself can take a step |
| KrtProgress.WorkerStepDescends | pkg/kube/krt/collection.go:394-702 | every step of the machinery itself, by whatever schedule, lowers a well-founded measure of what is left to do |
| KrtProgress.Settles | pkg/kube/krt/collection.go:394-702 | from every reachable state, when the inputs change no more, the collection comes to rest, synced, with the outputs of the transformation from scratch on those inputs |
| KrtSync.CommitIsEnabled | pkg/kube/krt/collection.go:436-541 | a computation that is done always meets what the commit demands |
| KrtSync.OutputsCanBeInputs | pkg/kube/krt/core.go:56-76 | batches that replay are what Convergence assumes of a parent and of a dependency, so collections can be chained |
| KrtStatic.StaticList.DeleteObject | pkg/kube/krt/static.go:83-98 | the object goes; indexes agree; the event replays; no event for a missing key |
| KrtStatic.StaticList.DeleteObjects | pkg/kube/krt/static.go:100-119 | exactly the objects the filter accepts go, in any order; indexes agree; the events replay |
| KrtStatic.StaticList.UpdateObject | pkg/kube/krt/static.go:169-208 | the object is stored; the event replays; a conditional update of an equal object, and only that, sends nothing |
| KrtStatic.StaticList.Reset | pkg/kube/krt/static.go:121-167 | the contents become the new state; the events replay if and only if no key is repeated, and then there is one event for each key that changed and none for any other |
| KrtStatic.ResetWithRepeatedKey | pkg/kube/krt/static.go:126-150 | resetting an empty collection to one object given twice sends events that do not replay |
| KrtStatic.StaticList.Index | pkg/kube/krt/static.go:291-314 | an index created at any time agrees with a scan |
| KrtStatic.StaticList.RegisterBatch | pkg/kube/krt/static.go:339-354 | a handler follows the contents from its registration on |
| KrtStatic.TakenInReplays | pkg/kube/krt/static.go:126-150 | half way through a Reset the events so far replay, until a key comes a second time, and then never again |
| KrtJoin.GetKeyFirst | pkg/kube/krt/join.go:59-70 | returns the object of a collection that has the key, none before it having it; nothing if and only if none has it |
| KrtJoin.FoundInOrder | pkg/kube/krt/join.go:165-176 | what is merged under a key is the object of each collection that has one, once, in the order of the collections |
| KrtJoin.QuickList | pkg/kube/krt/join.go:80-121 | lists one object per key found anywhere, the one GetKey returns, if and only if overlap is checked or no two collections share a key |
| KrtJoin.UncheckedListsIff | pkg/kube/krt/join.go:82-96 | the listings behind one another are that list if no two collections share a key, and else they hold a key twice |
| KrtJoinExamples.UncheckedJoinRepeats | pkg/kube/krt/join.go:82-96 | two collections with one key: without overlap checks both objects are listed |
| KrtJoinEvents.PassedOnTellsParentIff | pkg/kube/krt/join.go:151-163 | a batch of one collection, passed on, tells a collection derived from the join what became of each key if and only if no key it names that is then gone is held by another collection |
| KrtJoinEvents.PassedOnTellsDependentIff | pkg/kube/krt/join.go:151-163 | it shows a collection that fetches from the join every object that went or came if and only if it shows each object of a later collection that was uncovered or covered |
| KrtJoinEvents.UnsharedPassesOn | pkg/kube/krt/join.go:151-163 | a batch about keys that no other collection holds does both |
| KrtJoinEvents.DeletesPassIff | pkg/kube/krt/join.go:151-163 | the Delete of every object can be passed on if and only if no two collections share a key |
| KrtJoinExamples.SharedDeleteMisleads | pkg/kube/krt/join.go:151-163 | two collections with one key: the Delete of the first object is passed on though the join still returns the second |
| KrtJoin.MergeList | pkg/kube/krt/join.go:123-137 | for any merge function lists, in some order, what each key found anywhere merges to; if merging keeps keys, that is one object per key, the one GetKey returns |
| KrtMergedJoin.MergeCache.UpdateLocked | pkg/kube/krt/join.go:192-223 | stores what the key merges to for the handler and for the collection, and returns what the handler was last told |
| KrtMergedJoin.MergeCache.HandleInnerCollectionEvent | pkg/kube/krt/join.go:231-289 | for any merge function the named keys are handled each once, in some order; if merging keeps keys, the events replay what the handler was told into what the named keys merge to now, and no other handler's part changes |
| KrtMergedJoin.EventReplays | pkg/kube/krt/join.go:258-284 | the event made from the last told and the newly merged object replays, in all four cases |
| KrtJoinSystem.MergedReplay | pkg/kube/krt/join.go:123-311 | in every behaviour what a handler that registered on a cache without entries of the collection was sent since always replays. When all is delivered its view is what every key merges to in the inner collections as last changed, save for keys marked as lost unheard, where it is what the key merged to when last told; so it is the merged list if and only if no marked key merges differently now |
| KrtJoinSystem.FirstEventReplaysIff | pkg/kube/krt/join.go:178-190 | the first event about a key replays, whatever the key merges to, if and only if the collection had no entry for it |
| KrtJoinExamples.DisturbedHandlerIsStale | pkg/kube/krt/join.go:291-311 | a reachable state in which everything is delivered, one key is marked, and the handler's view is not the merged list |
| KrtJoinExamples.CachedKeyDoesNotReplay | pkg/kube/krt/join.go:178-223 | a reachable state in which the second handler of a merged join has heard an update of an object it was never told about |
| KrtJoinFetch.EventShowsChangeIff | pkg/kube/krt/join.go:258-284 | an event for a handler without existing state shows all that the change of the key can mean to a filter if and only if nothing changed, nothing was there, or the handler was told of what was there |
| KrtJoinFetch.UntoldChangeIsHidden | pkg/kube/krt/fetch.go:58-67 | on an empty cache, the first change of a key that existed at registration is not shown in full |
| KrtProcessor.CountingTracker.ParentSynced | pkg/kube/krt/processor.go:293-311 | closes the channel exactly when it is the first report and no object is outstanding; if no report ever came early, it has now been closed once |
| KrtProcessor.CountingTracker.Finished | pkg/kube/krt/processor.go:313-325 | closes the channel, once more, only when nothing is left outstanding and a report had come early |
| KrtProcessor.ClosesTwiceIffEarly | pkg/kube/krt/processor.go:289-325 | every continuation closes the channel at most once if and only if the parent was never reported synced while objects were being handled |
| KrtProcessor.DoubleCloseExample | pkg/kube/krt/processor.go:289-325 | four calls that close it twice |
| KrtProcessor.DeliveredInOrder | pkg/kube/krt/processor.go:190-268 | in every interleaving without stop or unregistration the calls of the handler are a prefix of those due, which are the existing state and then every batch distributed, the empty ones left out, in order; with nothing on its way they are all of them |
| KrtProcessor.SyncedOnceAfterInitial | pkg/kube/krt/processor.go:53-104 | the synced channel closes at most once, only after the first batch was handled, and does when all is delivered; the counter never goes negative |
| WorkQueue.QueuePromises | pkg/queue/instance.go:85-166 | in every interleaving the queue takes exactly what is pushed, marked or retried before the stop signal, starts it in that order, once each, and keeps exactly the failed tasks for a retry; synced if and only if the mark was executed, and then every Push before Run was; closed only when all that was taken was |
| WorkQueue.RunAccounts | pkg/queue/instance.go:85-137 | what the queue holds as accepted, started, to be retried, closing and closed is what the steps say |
| WorkQueue.QueueImpl.Push | pkg/queue/instance.go:85-92 | appends the task unless closing, and changes nothing else |
| WorkQueue.QueueImpl.Get | pkg/queue/instance.go:100-120 | takes the oldest task, also while closing; only a queue that is closing and empty answers with the shutdown, which ends the worker |
| WorkQueue.QueueImpl.Finish | pkg/queue/instance.go:122-137 | a failed task, and no other, becomes due for a retry; executing the mark, and nothing else, makes the queue synced |
| DelayHeap.Pq.Push | pkg/queue/delay.go:45-59 | sifting up in place computes the stated heap |
| DelayHeap.Pq.Pop | pkg/queue/delay.go:45-86 | takes the head, and sifting down in place computes the stated rest |
| DelayHeap.PushIsHeap | pkg/queue/delay.go:45-59 | a push adds exactly the task, and keeps a heap a heap |
| DelayHeap.PopIsHeap | pkg/queue/delay.go:45-78 | a pop removes exactly the head, and keeps a heap a heap |
| DelayHeap.HeadIsFirst | pkg/queue/delay.go:38-51 | the head of a heap runs no later than any task in it |
| DelayHeap.PlainAppendKeepsHeapIff | pkg/queue/delay.go:253-257 | appending without sifting keeps a heap if and only if it is empty or the new task's parent runs no later |
| DelayHeap.PlainAppendKeepsHeadIff | pkg/queue/delay.go:253-257 | such an append leaves the soonest task at the head if and only if the heap is empty or its head runs no later than the new task |
| DelayHeap.PopMendsAppend | pkg/queue/delay.go:45-78 | the next pop makes a heap of what is left, wherever the new task belonged |
| DelayHeap.HeapDrainsInOrder | pkg/queue/delay.go:45-86 | popping a heap until it is empty takes the tasks soonest first |
| DelayHeap.AppendedDrainsInOrderIff | pkg/queue/delay.go:45-86 | after such an append that is still so if and only if the heap was empty or its head runs no later than the new task |
| DelayQueue.StepMoves | pkg/queue/delay.go:165-288 | a step of pusher, dispatcher or worker moves tasks between places; only a push brings one in |
| DelayQueue.DelayPromises | pkg/queue/delay.go:165-288 | in every interleaving each task a step pushed is in exactly one place, no other is, and none is lost before a stop step; no start step takes a task before its time, none is started more than four times; a dropped one was started exactly four times, a done one at least once |
| DelayQueue.SoonestFirstIff | pkg/queue/delay.go:214-257 | in every run the append without sifting meets a heap, and the next look, if no pusher comes in between, takes the soonest task if and only if none was appended out of place or the head runs no later than it; it leaves a heap behind |
| DelayQueue.LateTaskIsReachable | pkg/queue/delay.go:176-187 | a run in which a due task lies in the heap while the dispatcher waits for a later one |
| Xds.Watcher.ShouldRespond | pkg/xds/server.go:276-453 | the answer, the names told as new and the whole stored watch are those of the simple account, for every branch |
| Xds.Watcher.Sent | pkg/xds/server.go:206-231 | a sent response sets the last nonce of its type, as the simple account says, and nothing else |
| Xds.SubscriptionRefinesSimple | pkg/xds/server.go:276-457 | over every run the stored names, nonces, open marking and last error equal a simple fold of what happened: an acknowledgement records its nonce, answers the marking and clears the error; a NACK sets it |
| Xds.AnsweredIff | pkg/xds/server.go:276-453 | over every run a request is answered if and only if it is neither NACK nor unsubscription and is a start, watched or not, or stale with names that changed, or an acknowledgement that adds a name, changes the names of a wildcard type, or meets an open marking; and the names told as new are exactly those added, none for a start or a marking |
| Xds.NoResponseLoop | pkg/xds/server.go:289-453 | responses are at most the empty nonces, the changes of the stored names and the markings, together |
| Xds.AcksAreNotAnswered | pkg/xds/server.go:384-453 | a client that only acknowledges unchanged names gets no more responses than there are markings to answer |
| Xds.AckedNoncesWereSent | pkg/xds/server.go:206-231 | over every run the nonces a watch holds as sent and acknowledged last are empty or were sent on that very watch, not on an earlier one of its type |
| Xds.AdditionsAreAnswered | pkg/xds/server.go:334-453 | every request on a watch, other than a NACK, that adds a name is answered, and unless it is a start or meets an open marking the delta is the new names minus the old |
| Values.MergeFrom | operator/pkg/values/map.go:414-432 | the recursive loop gives the same tree for any order of keys |
| Values.MergeAt | operator/pkg/values/map.go:414-432 | what a merge holds at every path: the overlay's leaf; its node merged over the base's; else the base's value, unless a leaf of the overlay cuts the path off |
| Values.MergeIsIdempotent | operator/pkg/values/map.go:414-432 | applying the same overlay again changes nothing, on every tree, up to which Go type a map has |
| Values.AbsorbedIff | operator/pkg/values/map.go:414-432 | up to which Go type a map has, an overlay replaces a base without trace if and only if it has every key of the base, at every level where the base can be merged into |
| Values.MergeIsAssociativeIff | operator/pkg/values/map.go:414-432 | up to which Go type a map has, merging three trees groups either way if and only if no scalar of the middle one cuts off a map of the first that the last has a map for, unless the last says all of it again, and no map of the named type in the middle had added anything where the last replaces it |
| Values.PlainSameIsEqual | operator/pkg/values/map.go:414-432 | on trees without the named type, as decoding yields, being the same up to Go types is being equal |
| Values.GroupingMatters | operator/pkg/values/map.go:414-432 | three one-key trees that group differently |
| Values.NamedBaseMergesIff | operator/pkg/values/map.go:418-427 | replacing a base of the named type equals merging if and only if the overlay covers it |
| Values.NamedBaseLosesKey | operator/pkg/values/map.go:418-427 | a base of the named type loses its key to an empty overlay |
| Values.GetPath | operator/pkg/values/map.go:164-210 | the loop over keys finds the value at the path |
| Values.SetOutcome | operator/pkg/values/map.go:295-353 | a write panics exactly on an empty path or a scalar on the way, changes nothing past a null, and else is read back |
| Values.WritePastNullIsLost | operator/pkg/values/map.go:295-353 | writing below a null returns without error and leaves the tree as it was |
| Values.SetThenGetIff | operator/pkg/values/map.go:260-353 | the value set is the value read if and only if every proper prefix is missing or a map |
| Values.SetLeavesOthers | operator/pkg/values/map.go:260-353 | every path that is neither prefix nor extension of the one written reads as before |
| Values.SetsCommute | operator/pkg/values/map.go:270-283 | writes to such paths can be made in either order, panics included |
| Render.MergeInputs | operator/pkg/render/manifest.go:39-119 | the loops over files, flags and overlay compute the stated outcome, failures and panics included |
| Render.LastFileWins | operator/pkg/render/manifest.go:56-85 | a leaf of a file holds unless a later file says something on its path |
| Render.NullSpecIsSilent | operator/pkg/render/manifest.go:78-81 | a file with a null spec says nothing about it; otherwise a file counts as it is |
| Render.LastFlagWins | operator/pkg/render/manifest.go:86-89 | a flag holds unless a later one overlaps it or a value other than a map was in its way |
| Render.UserValueSurvives | operator/pkg/render/manifest.go:91-119 | a leaf the user gives under spec.values is in the result, whatever profile, compiled defaults and translation say |
| Render.UserOverDefaults | operator/pkg/render/manifest.go:100-119 | at a path outside spec.values to which no repo or tag present is carried, a user's leaf is in the result, and where the user is silent the profile with compiled defaults shows through |
| Render.CarriedIff | operator/pkg/values/map.go:249-257 | a value whose text has no equals sign goes, trimmed, to its global path; any other makes its whole text the path and is empty |
| Render.MeantIsUncarried | operator/pkg/render/manifest.go:131-145 | when no repo or tag present has an equals sign, nothing is carried to any path but the two global ones |
| Render.TranslationOverDefaults | operator/pkg/render/manifest.go:108-145 | under spec.values, where the user is silent, the result holds what the translation left |
| Render.ProfileIsNamed | operator/pkg/render/manifest.go:91-93 | the profile is the non-empty text at spec.profile, and else the default one |
| Render.NamedProfileWins | operator/pkg/render/manifest.go:159-178 | a leaf of the named profile is in the base, and where that profile is silent the default one shows |
| Render.ProfileUnderUser | operator/pkg/render/manifest.go:39-119 | outside spec.values, where neither user nor compiled settings speak, the result has the leaf of the profile the user names, and where that is silent what the default profile has |
| Render.OverlayOverProfile | operator/pkg/render/manifest.go:104-129 | a compiled setting is over the profile: where the user is silent it is in the result, unless a value other than a map was in its way |
| Render.FailsIff | operator/pkg/render/manifest.go:56-106 | an error is returned if and only if a file cannot be read, or the default or the named profile is not there |
| RenderOrder.TopLevelReachesHelm | operator/pkg/render/manifest.go:108-145 | a top-level repo or tag without an equals sign, trimmed and parsed, is in the result under spec.values.global, unless the user sets that or a value other than a map is in the way |
| Writes.SameNetIff | operator/pkg/values/map.go:270-353 | two pairs of scalar settings leave the same tree, or both panic, if and only if what they change, read off the tree before, is the same: lost and idle settings count for nothing, one at or above an earlier one hides it, one below it panics |
| Values.HidesIff | operator/pkg/values/map.go:414-432 | laying one tree over two others gives the same if and only if, wherever they differ, it has a leaf or covers what the one can take in and the other cannot |
| RenderOrder.OrdersAgreeIff | operator/pkg/render/manifest.go:131-145 | carrying repo and tag down in either order has the same outcome if and only if both orders change the same, the second reading what the first leaves at its source |
| RenderOrder.KeptSourcesAgreeIff | operator/pkg/render/manifest.go:131-145 | if neither is carried over the source of the other: if and only if a value is absent, a write panics in any case, the paths do not overlap, the writes are the same, or both are lost past a null |
| RenderOrder.TranslationOrderIff | operator/pkg/render/manifest.go:39-145 | the rendered configuration is the same for both orders if and only if the inputs do not get as far, both orders change the same, or neither panics and the user's own values hide the difference |
| RenderOrder.TranslationOrderIsIrrelevant | operator/pkg/render/manifest.go:131-145 | in particular the order is irrelevant if no value present has an equals sign |
| RenderOrder.StrayValueMakesOrderMatter | operator/pkg/render/manifest.go:131-145 | one file, with a repo that holds an equals sign, for which the two orders render different configurations |
| Telemetry.Resolve | pkg/config/telemetry/telemetry.go:121-154 | each field is what the most specific resource that sets it sets: a matching selector of the namespace, the later the stronger, over the first of the namespace without selector, over that of the mesh; unset when none of these sets it |
| Telemetry.LayersArePrecedence | pkg/config/telemetry/telemetry.go:134-152 | the last layer to set a field is the most specific resource that does |
| Telemetry.Apply | pkg/config/telemetry/telemetry.go:176-267 | applying one more layer makes every field that of the last item to set it |
| Telemetry.LastIsLast | pkg/config/telemetry/telemetry.go:118-121 | that is: from an item behind which no other sets the field, or unset when none does |
| Telemetry.MatchesLabels | pkg/config/telemetry/telemetry.go:167-174 | every selected label has its value, a missing label counting as empty |
| Telemetry.FirstNamespaceLevel | pkg/config/telemetry/telemetry.go:156-165 | the first resource of the namespace with a spec and no selector |
| Telemetry.SortSorts | pkg/config/telemetry/telemetry.go:122-131 | the order used is sorted by creation time, namespace and name, a permutation, and keeps resources that share all three in the order listed |
| Telemetry.SortIgnoresOrderIff | pkg/config/telemetry/telemetry.go:122-131 | every permutation of the resources sorts the same if and only if no two different ones share creation time, namespace and name |
| Telemetry.ResolveIgnoresOrder | pkg/config/telemetry/telemetry.go:121-154 | permuting the resources does not change the result, if no two different ones share creation time, namespace and name |
| Telemetry.ClashDependsOnOrder | pkg/config/telemetry/telemetry.go:123-136 | two that do: the one listed first decides |
| Host.SubsetIffIncluded | pkg/config/host/name.go:64-89 | SubsetOf holds if and only if every concrete host of the one name is one of the other's |
| Host.MatchesIffIntersect | pkg/config/host/name.go:26-62 | Matches holds if and only if some concrete host belongs to both, and so in either order |

## Left out

- Kubernetes clients, informers, Helm rendering, webhooks, command line, TLS and file watching: input and output, or library calls.
- Nested joins.
- krt object augmentation, `DiscardResult`, index collections, debug dumps, logging and metrics: orthogonal to what is proved.
- Handlers on a parent that is not yet synced: only the tracker's part is modelled (`KrtProcessor.ClosesTwiceIffEarly`).
- KrtFetch.Fetch: that the dependency is registered before the read is a step of its own, `Register` in `KrtSystem`.
- KrtCollection.ManyCollection.HandleChangedPrimaryInputEvents: the results computed before the lock is taken are parameters; computing them is a series of steps in `KrtSystem`. Discarded results are not modelled.
- KrtProcessor.SyncedOnceAfterInitial: handlers of a parent that had synced when they registered.
- KrtProcessor.DeliveredInOrder: the growing ring buffer is a sequence, and the goroutines are steps.
- KrtJoinSystem.MergedReplay: each inner batch is handled in one step; merging keeps keys; a handler asks for the existing state and starts from a cache without entries of the collection. One that does not ask for it is in `KrtJoinFetch`.
- KrtHandlers.HandlerSet.Distribute: what was sent is recorded per handler; the way from there to the handler is `KrtProcessor`.
- WorkQueue.QueueImpl.Get: waiting on the condition variable is the precondition that there is a task or the queue is closing.
- DelayHeap.Pq.Pop: the shrinking of the slice's capacity is not modelled.
- DelayQueue.DelayPromises: a send to the execute channel is never refused, which only allows more interleavings; that every task runs eventually is not stated.
- DelayQueue.SoonestFirstIff: after an append out of place, a direct pusher before the dispatcher's next look leaves the heap in a state of which nothing is said until it is empty.
- Xds.Watcher.ShouldRespond: a NACK for a type that is not watched dereferences nil in the source and is excluded; in runs it changes nothing.
- Values.MergeFrom: works on values; after the call the source's two trees share submaps, which is not modelled.
- Values.GetPath: key segments only; list segments in brackets, the splitting of path text and pointers to values are not modelled.
- Values.SetOutcome: likewise, and on values; a panic half way leaves nodes behind that are not modelled.
- Render.MergeInputs: reading and decoding of files, profiles and flag text, printing a value, splitting path text and parsing a scalar are parameters; the copy of the user's values through JSON is the identity, so a change of number type is not modelled.
- Render.CarriedIff: trimming removes the white space of ASCII, not that of Unicode.
- Telemetry.Apply: logging rules and metric rules are opaque values, copied as they are.
- Telemetry.ResolveIgnoresOrder: the exact condition is stated of the order of the layers, `Telemetry.SortIgnoresOrderIff`; layers in another order may still resolve to the same.
- Telemetry.Resolve: strings compare by their characters' order, as bytes do in Go for the same encoding.
- Component rendering, certificates, service registries and the rest of the control plane: mostly calls into libraries and other systems, with little state of their own.
