# A model of baaah, with proofs

baaah is a framework for Kubernetes controllers. This project restates its decision-making parts in Dafny and proves
what they keep: the apply engine that makes a cluster match a desired set of objects, the router with its trigger
registry, per-key backoff and finalizer handlers, the write-through cache and the work queue beneath them, and the
watcher that resumes a watch. `dafny verify dfyconfig.toml` checks everything.

## How it is built

The API server is a map keyed by group-kind, namespace and name, so one object is visible under every version of its
kind (`server.dfy`). Which calls fail is an arbitrary function of the call number, and every change goes on a log. The
order in which a Go map is ranged over, the order of the passes' keys, how the server answers, what callbacks and
handlers reply, and how steps interleave are all arbitrary; what is proved holds for all of them.

Code that changes things step by step is a class or a method with loops, and is proved equal to a function from old
state to new state, or to be one step of a state machine; the theorems are then about that function or machine.

- Apply engine. `process.dfy` is one `process` call as a function on worlds. `reconcile.dfy` shows that its five passes
  come to a decision made slot by slot. `ownership.dfy`, `history.dfy` and `takeover.dfy` are ownership safety over
  sequences of applies, down to the labels and annotations that decide it; `contents.dfy` is what each slot holds in the
  end, field by field and back to the declaration, `failures.dfy` what failing calls leave; `convergence.dfy` and
  `idempotence.dfy` are what an apply achieves and that a second one changes nothing, leg by leg;
  `crossversion.dfy` brings both back to what an owner declares, and is about kinds processed in several versions.
  `normalise.dfy` has the loops that edit a map while ranging over it. `apply.dfy` and `objectset.dfy` are the whole
  apply and its object set, `order.dfy` sorts by text, `engine.dfy` is all of it in the form the program has, `owners.dfy`
  finds and purges by owner, `sanitize.dfy` and `prune.dfy` clean patches and the remembered object.
- Router. `triggers.dfy` is the registry as a nested map that refines a set of facts, `cascade.dfy` proves that trigger
  cascades end. `limiter.dfy` is the token bucket over real numbers, `backoff.dfy` and `throttling.dfy` the throttled
  queue over all runs, `metering.dfy` the same queue by counting the events of a run, `handlerset.dfy` the handler set.
  `finalizers.dfy` is the finalizer handler, `handlers.dfy` the chain of handlers with the response they share.
- Runtime and watcher. `versions.dfy` and `overlay.dfy` are the cache laid over lagging informers, `controller.dfy` the
  work queue, `codecs.dfy` and `text.dfy` the texts keys are packed into, `watcher.dfy` the resuming watch.

## Assumptions

- The merge library is a function from a live and a desired object to a verdict. `Convergence.Merges` and
  `Idempotence.Settles` are the laws used of it, stated where they are needed; `Idempotence.PutOverMeetsTheLaws` has a
  merge that meets both. SHA-1 is an injective function of the concatenated fields.
- A deleted object with finalizers lingers with a deletion timestamp; one without is gone at once.
- Each critical section of the program is one atomic step.

## Where the code and its comments disagree

- The limiter gives one token per 5 seconds with a burst of 10 (pkg/router/handler.go:207); the comment above it says 15
  seconds, and that it applies whatever the source of a key, but triggered and replayed keys do not ask it (line 252).
- `UnregisterAndTrigger` is documented to trigger where a watch matches the object exactly. It triggers for every watch
  that fits, once for each, and forgets the ones with the same namespace and name (pkg/router/trigger.go:119-129).
- `getGVK` undoes the text of a GVK only when no part contains a separator; owner hashes are of fields run together, so
  different owners can share one. Both are stated exactly below.
- Clearing namespaces has a result that depends on the order of a map range when two desired objects of a
  cluster-scoped kind have one name and differ in more than their namespace.
- The cross-version filter is there to keep desired objects from being pruned. It misses a namespace filled in from an
  owner outside the default namespace, and a namespace given to a cluster-scoped object, which is cleared
  (`CrossVersion.BothAreReal`).
- A finalizer handler writes the list it was handed, less its head. With a name in that list twice this can bring back
  finalizers that were already taken.
- A response keeps the least delay asked for (pkg/router/handler.go:369-373), but a zero makes it forget the earlier ones.

## Model

| member | source | states |
|---|---|---|
| Reconcile.ProcessDecides | pkg/apply/desiredset_process.go:160-272 | the create, update, prune and delete-then-recreate passes refine one decision per slot: after a call without errors every slot of the server holds what the decision about it alone says, whatever the order of keys |
| Reconcile.RunAtWanted | pkg/apply/desiredset_process.go:195-269 | for a desired key the passes, including a takeover that appends to the update queue while running and a replacement, come to the decision for that key |
| Reconcile.PrunedAt | pkg/apply/desiredset_process.go:257-261 | the prune pass removes exactly what it must, and touches no other slot |
| Reconcile.QueuesAreDistinct | pkg/apply/desiredset_process.go:189-193 | no key is ever twice in the update or replace queue, although closures append to them |
| Ownership.ProcessIsLawful | pkg/apply/desiredset_process.go:195-272 | whatever fails and in whatever order, one selector-mode call patches, replaces or deletes only objects with no hash, with its own hash, or taken over by the sub-context or owner-change rule, and deletes only what it desires or what pruning is on for and the cross-version filter does not find; all of it is on the log |
| History.EveryChangeIsLicensed | pkg/apply/desiredset_apply.go:42-71 | over any sequence of applies by any owners every change on the log is licensed for the apply that made it, and the log explains every difference between the first world and the last |
| History.ForeignObjectSurvives | pkg/apply/desiredset_process.go:204-216 | an object none of the applies is licensed to touch comes through any sequence of them unchanged |
| Takeover.TakesOverExactly | pkg/apply/desiredset_process.go:195-222 | said of the labels and annotations themselves: a create that runs into an object writes nothing; it ends without an error if and only if its calls get through and the object has no hash, or names the same owner without the sub-context that the desired one has, or the change of sub-context is registered and no owner annotation conflicts; then that is the object to compare with, and the key is queued unless it opts out of updates |
| Takeover.UnownedIsTakenOver | pkg/apply/desiredset_process.go:202-216 | an object without a hash is taken over: no error, the live object is the one to compare with, and the key is queued if it opts in to updates |
| Takeover.ForeignIsTakenOverExactly | pkg/apply/desiredset_process.go:204-216 | an object with another hash is taken over in exactly two cases, by its own owner under a new sub-context or by a registered change of owner |
| Takeover.NothingWasRefused | pkg/apply/desiredset_process.go:204-216 | a call without errors was granted every object it desires, did not list, and may create |
| Takeover.LicensedExactly | pkg/apply/desiredset_process.go:195-272 | the licence that ownership safety is about, in the same terms: hash, owner annotations, registered changes, and what the kind declares |
| Takeover.HeldElsewhereSurvives | pkg/apply/desiredset_process.go:204-216 | over any sequence of applies, an object comes through unchanged if it has a hash that is none of the appliers' and names an owner, by kind, name or namespace, that none of them stamps on its objects |
| Convergence.ProcessConverges | pkg/apply/desiredset_process.go:195-272 | after a call without errors a desired object that does not opt out exists with the owner's hash if and only if the live object found was not one that had to be replaced and could not be |
| Convergence.ApplyConverges | pkg/apply/desiredset_apply.go:42-71 | after an apply without errors whose legs are safe from each other across versions, every desired object that neither opts out nor is stuck (it had to be replaced and could not be) has the owner's hash, everything else with the hash in a processed kind is exempt from pruning, and every slot that is not stuck is as before, empty, or owned |
| Convergence.CrossVersionExactly | pkg/apply/desiredset_process.go:137-150 | an owned object that another version of its kind does not desire survives that version's turn if and only if the cross-version filter finds its key declared |
| Convergence.ProcessFrame | pkg/apply/desiredset_process.go:160-272 | other kinds, and undesired objects without the owner's hash, are not touched |
| Contents.DesiredExactly | pkg/apply/desiredset_process.go:195-269 | field by field: after a call without errors a desired key that was free holds the desired object with its labels, owners, finalizers, contents and the record of what was applied, not being deleted, or nothing if it opts out; one that was taken holds what the comparison says, and is replaced if it may be and has no finalizers, or left to linger |
| Contents.PrunedExactly | pkg/apply/desiredset_process.go:257-261 | a key that is not desired loses its object, or has it linger, if and only if pruning is on, the hash on it is the selected one and fits its own annotations, it is listed, does not opt out, is not being deleted, and no version of the kind declares it |
| Contents.ApplyLeavesDesired | pkg/apply/desiredset_apply.go:42-71 | the same after a whole apply without errors, for every slot that one version of its kind desires: it holds what it should, by what it held at the start |
| Contents.StampIsExact | pkg/apply/desiredset_apply.go:104-182 | stamping puts exactly the hash and the identity of the owner on an object, drops an old record, and changes nothing else |
| Contents.WithOwnerExactly | pkg/apply/desiredset_process.go:70-88 | the reference put at the end names the owner by kind, name and UID, and is put there if and only if the owner has a UID, the object opts in to pruning and has no reference by that UID |
| Contents.NormalContents | pkg/apply/desiredset_process.go:26-135 | normalising changes of an object only its key, and adds at most that reference, if and only if it would not cross namespaces |
| Contents.UnplacedWins | pkg/apply/desiredset_process.go:26-120 | of two objects that end up under one key of a namespaced kind, the one declared without a namespace is the one processed |
| Contents.DeclaredIsCreated | pkg/apply/desiredset_apply.go:42-71 | from the declaration to the server: after an apply without errors, of objects safe across versions, a declared object whose slot was free is there with its contents and finalizers, the owner's identity, hash and reference, and the record of what was applied; unless it opts out |
| Failures.CreatedOnItsOwn | pkg/apply/desiredset_process.go:246-249 | whatever fails before and after, in the create pass a free key gets its object if and only if its own call does not fail |
| Failures.UpdatedOnItsOwn | pkg/apply/desiredset_process.go:251-253 | in the update pass a key that needs a patch gets it if and only if its own call does not fail |
| Failures.DeletedOnItsOwn | pkg/apply/desiredset_process.go:255-259 | the i-th deletion is the i-th call of its pass, and fails or not by itself |
| Failures.EveryTurnRuns | pkg/apply/desiredset_apply.go:63-68 | every kind has its turn on what the one before left, failed or not, and errors add up |
| Convergence.InjectStamps | pkg/apply/desiredset_apply.go:138-182 | every object of the injected set carries the identity of the owner |
| Apply.ShieldedExactly | pkg/apply/desiredset_process.go:137-150 | the filter protects the normalised key of a declared object, of any scope, if and only if that key was declared too, or its namespace was filled in from the default or an owner in the default namespace |
| Apply.NormalKeysExactly | pkg/apply/desiredset_process.go:160-182 | the keys processed are exactly the normalised keys of the declared objects |
| Apply.NormalFrom | pkg/apply/desiredset_process.go:160-182 | every normalised object is stored under its own key and has the labels and annotations of one declared object |
| Idempotence.ApplyIsIdempotent | pkg/apply/desiredset_process.go:160-272 | a second apply of the same set and no further kinds, against what a successful one left, changes no object, whatever calls then fail, also when pruned objects linger; for legs safe from each other across versions, no object desired in two versions, and no clash of cleared namespaces |
| Idempotence.NormalFormIsUnique | pkg/apply/desiredset_process.go:160-182 | without such a clash normalisation is a function of what was declared |
| Idempotence.TwoVersionsDisagree | pkg/apply/desiredset_process.go:236-246 | two versions that desire an object with different labels are never both content with it |
| Idempotence.PutOverMeetsTheLaws | pkg/apply/desiredset_compare.go:408-430 | a merge that puts the desired labels and annotations over the live ones meets every law assumed of the merge library |
| Idempotence.ApplySettles | pkg/apply/desiredset_apply.go:62-70 | a successful apply whose legs are safe from each other, with no object desired in two versions, leaves every slot of every processed kind in a state that processing leaves alone |
| Idempotence.ProcessKeepsStable | pkg/apply/desiredset_process.go:195-272 | such a state is left alone whatever fails |
| CrossVersion.SafeLegsExactly | pkg/apply/desiredset_process.go:137-150 | the legs of an apply are safe from each other if and only if every object declared in one version of a kind is found again by the filter or declared in the other version too |
| CrossVersion.PlainlyDeclaredIsSafe | pkg/apply/desiredset_process.go:137-150 | that is so when namespaces are given, or filled in with the default, in namespaced kinds and absent in others, and whenever no two versions of a kind are processed |
| CrossVersion.DesiredIsNeverPruned | pkg/apply/desiredset_apply.go:62-68 | of objects declared safely none that is desired is ever pruned through another version of its kind, whatever fails on the way |
| CrossVersion.DeclaredObjectsConverge | pkg/apply/desiredset_apply.go:42-71 | convergence of a whole apply, stamping included, from what can be seen of the declaration |
| CrossVersion.PlainObjectsConverge | pkg/apply/desiredset_apply.go:42-71 | the same for plain declarations, and for any declaration whose kinds are each processed in one version |
| CrossVersion.DeclaredObjectsStay | pkg/apply/desiredset_apply.go:42-71 | idempotence of a whole apply, from what can be seen of the declaration |
| CrossVersion.SurvivesExactly | pkg/apply/desiredset_process.go:137-150 | one object, its kind processed in the declared version and then in another: after any such apply without errors it is there and not being deleted if and only if the filter finds it again |
| CrossVersion.PrunedThoughDesired | pkg/apply/desiredset_process.go:137-150 | whenever the filter does not, there is an apply without errors that ends with the object pruned although it is desired |
| CrossVersion.BothAreReal | pkg/apply/desiredset_process.go:137-150 | the two ways that happens: a namespace filled in from an owner outside the default namespace, and a namespace given to a cluster-scoped object |
| Normalise.ClearIsUnique | pkg/apply/desiredset_process.go:122-135 | the map that clearing namespaces ends with is the same for every order of the range if and only if no two entries of one name have namespaces and differ in more than them |
| Normalise.ClearedExactly | pkg/apply/desiredset_process.go:122-135 | a map is a possible result if and only if some order of the range reaches it |
| Normalise.ClearNamespace | pkg/apply/desiredset_process.go:122-135 | the loop, along any range order and with inserted entries produced again, is the clearing along that order, and a possible result |
| Normalise.AdjustNamespace | pkg/apply/desiredset_process.go:106-120 | the loop reaches the same map for every range order and every revisit |
| Normalise.AssignOwnerReference | pkg/apply/desiredset_process.go:26-104 | the loop reaches the same map for every range order and every revisit; keys agree with namespaces, and owners are not set across namespaces |
| Normalise.SetOwner | pkg/apply/desiredset_process.go:75-92 | the owner reference is appended only if no reference has its UID, the UID is known and pruning is not opted out of |
| Normalise.WithOwnerTwice | pkg/apply/desiredset_process.go:75-92 | a reference is added at most once, so a revisited entry does not change |
| ObjectSets.ObjectSet.Add | pkg/apply/objectset/objectset.go:88-108 | all indexes follow the object: it replaces one under the same kind and key, and its kind is ordered once |
| ObjectSets.ObjectSet.Contains | pkg/apply/objectset/objectset.go:70-73 | true exactly if the key was declared in some version of the kind, before any normalisation |
| ObjectSets.ObjectSet.GVKOrder | pkg/apply/objectset/objectset.go:118-133 | the kinds in the order first added, then the other known ones sorted by their texts; each exactly once |
| ObjectSets.DeclaredAdd | pkg/apply/objectset/objectset.go:158-171 | adding declares the key for the kind in every version and no other key |
| ObjectSets.InjectLabelsAndAnnotations | pkg/apply/desiredset_apply.go:138-158 | copies every object once into a new set, stamped, with all its indexes |
| Engine.ApiServer.Delete | pkg/apply/desiredset_crud.go:28-35 | as the server does it: failing, not found, lingering with finalizers, or gone |
| Engine.Job.CreateF | pkg/apply/desiredset_process.go:195-226 | creates, or takes over and queues for update, exactly as the pass function says |
| Engine.Job.UpdateF | pkg/apply/desiredset_process.go:236-246 | patches, queues for replacement, or notes an error, exactly as the pass function says |
| Engine.Job.DeleteF | pkg/apply/desiredset_process.go:228-234 | deletes or notes an error |
| Engine.CompareSets | pkg/apply/desiredset_process.go:378-410 | the three queues hold exactly the keys to create, update and prune, each once, sorted by their texts |
| Codecs.QueueIsDetermined | pkg/apply/desiredset_process.go:406-410 | for keys whose texts cannot be mistaken, what there is to do determines the order in which it is done |
| Engine.FilterCrossVersion | pkg/apply/desiredset_process.go:137-150 | keeps exactly the keys that no version declares, looking under the default namespace too |
| Engine.Applier.ListExisting | pkg/apply/desiredset_process.go:303-372 | lists by hash, or by key in the order of the desired objects, stopping at the first error |
| Engine.Applier.RunPasses | pkg/apply/desiredset_process.go:248-271 | the five loops in order, with shared queues, are the run of the pass functions |
| Engine.Applier.Apply | pkg/apply/desiredset_apply.go:42-71 | a whole apply is one run over every declared or known kind once, so all theorems about runs hold of it |
| Owners.ApplyStampsOwner | pkg/apply/desiredset_apply.go:117-129 | what an apply stamps names its owner's GVK, name and namespace |
| Owners.FindsStampedOwner | pkg/apply/desiredset_owner.go:29-52 | what an apply stamped leads back to exactly its owner |
| Owners.PurgesExactlyOrphans | pkg/apply/desiredset_owner.go:54-74 | a stamped object is deleted if and only if its owner is gone, and no other object changes |
| Owners.PurgesExactly | pkg/apply/desiredset_owner.go:29-74 | for any object: one never stamped is left alone, a stamp that cannot be read and a failed lookup are errors, one whose owner exists is left alone, and one whose owner is gone is deleted, to linger if it has finalizers |
| Owners.PurgeOrphanOn | pkg/apply/desiredset_owner.go:54-74 | the method does that on the server |
| Owners.HashIsOfConcatenation | pkg/apply/desiredset_apply.go:183-189 | two owners share a hash if and only if their fields run together are the same text |
| Owners.DistinctOwnersShareHash | pkg/apply/desiredset_apply.go:183-189 | two different owners that do |
| Owners.HashTellsNamesApart | pkg/apply/desiredset_apply.go:183-189 | within one kind, sub-context and namespace the hash tells owners apart |
| Sanitize.SanitizePatch | pkg/apply/desiredset_compare.go:124-182 | the patch to send is what is left after stripping, or the empty one |
| Sanitize.EmptyMaps | pkg/apply/desiredset_compare.go:96-116 | true if and only if the map is a chain of single keys along the path that ends in nothing, or goes on with the sentinel key |
| Sanitize.RemoveMetadataFields | pkg/apply/desiredset_compare.go:270-286 | removes exactly the five fields, and tells whether any was there |
| Sanitize.StripsExactly | pkg/apply/desiredset_compare.go:132-149 | exactly kind, apiVersion, status and five metadata fields go; everything else keeps its value |
| Sanitize.SendsExactly | pkg/apply/desiredset_compare.go:124-182 | a patch that is sent at all is sent with exactly the other fields, unchanged |
| Sanitize.SanitizedTwice | pkg/apply/desiredset_compare.go:124-182 | cleaning is idempotent |
| Sanitize.EmptyExactly | pkg/apply/desiredset_compare.go:168-175 | nothing is sent if and only if all that remains is metadata, in it nothing but annotations, and in those nothing but an empty record of the engine; for maps without the sentinel key |
| Sanitize.SentinelHidesAChange | pkg/apply/desiredset_compare.go:97 | a map with the literal sentinel key makes a real change count as empty |
| Prune.UnchangedExactly | pkg/apply/desiredset_compare.go:340-384 | pruning leaves a value alone if and only if it has no text to cut |
| Prune.KeepsPlaces | pkg/apply/desiredset_compare.go:340-384 | no field or item is added or lost anywhere in the tree, and nothing but texts changes, which are only cut |
| Prune.KeepsListKeys | pkg/apply/desiredset_compare.go:364-366 | the keys a list merge goes by keep their values in the items of every list |
| Triggers.EqualsIsEquality | pkg/router/matcher.go:16-36 | matchers are equal exactly if all their parts are |
| Triggers.DeletedMatch | pkg/router/matcher.go:38-73 | what fits a deleted object: a name and namespace, or a namespace alone without selectors |
| Triggers.FitsExactly | pkg/router/matcher.go:38-73 | a watch fits exactly if it names the object with its namespace, or has no name, is on the object's namespace or on all, and has its selectors met by the object at hand |
| Triggers.Registry.Register | pkg/router/trigger.go:54-73 | inserts one fact into the set the nested map stands for; registering twice changes nothing |
| Triggers.Registry.InvokeTriggers | pkg/router/trigger.go:35-52 | runs again, once each, exactly the other targets with a watch on the kind that names the object with its namespace, or that has no name, has its namespace or none, whose label selector its labels meet and whose field selector it does not answer with false |
| Triggers.Registry.Trigger | pkg/router/trigger.go:75-79 | the same, and nothing for a triggered run |
| Triggers.Registry.UnregisterAndTrigger | pkg/router/trigger.go:106-135 | removes exactly the facts of the target and the watches with exactly the object's kind, namespace and name, and runs every other target again once for each of its watches that names or selects the object |
| Triggers.SurvivorsAre | pkg/router/trigger.go:118-125 | one rebuilt list has exactly the matchers that stay, without duplicates |
| Cascade.StepDecreases | pkg/router/handler.go:295-321 | every step, throttled or handled, makes the lexicographic measure smaller: registered deleted targets, loud keys, plain keys, queue |
| Cascade.EveryRunDrains | pkg/router/trigger.go:75-135 | from any queue and any registry every run reaches an empty queue |
| Cascade.HandlerLoop.HandleKey | pkg/router/handler.go:316-321 | handling a key with any watches registered is such a step; what is queued is what was queued and the targets the registry asked for, and a triggered run of an existing object asks for none |
| Cascade.RequestNames | pkg/router/handler.go:117-165 | the key of an object gives the request its namespace and name |
| Limiter.ReserveMovesZero | pkg/router/handler.go:207-213 | the bucket is a zero time that each reservation moves five seconds ahead |
| Limiter.ActsAscend | pkg/router/handler.go:213 | reservations act in the order they were made |
| Limiter.SpanBound | pkg/router/handler.go:207-213 | reservations i to j take at least the time to earn what the burst does not cover |
| Limiter.RateBound | pkg/router/handler.go:207-213 | at most 10 + T/5 reservations of one bucket act in any window of T seconds |
| Backoff.CheckDelayKeeps | pkg/router/handler.go:192-231 | checking keeps: one replay per waiting key, buckets that are what their reservations make them, no debt without waiting, no replay more than five seconds away |
| Backoff.WakeKeeps | pkg/router/handler.go:219-227 | a replay that wakes ends exactly its own key's wait, and the key owes nothing then |
| Backoff.ForgetKeeps | pkg/router/handler.go:233-237 | forgetting a limiter, even of a waiting key, keeps it too |
| Throttling.AlwaysInvariant | pkg/router/handler.go:192-286 | all of it in every reachable state, with changes, deliveries, failures, deletions and time interleaved |
| Throttling.WaitingHasOneReplay | pkg/router/handler.go:192-231 | a key waits if and only if a replay of it is outstanding, and then exactly one, due within five seconds |
| Throttling.NoDelayExceedsFive | pkg/router/handler.go:207-213 | a key that does not wait has a balance that is not negative, so its next delay is at most five seconds |
| Throttling.NothingIsForgotten | pkg/router/handler.go:239-286 | when nothing is left to do, the handlers have finished with the latest version of every object |
| Throttling.SuppressedIsAnswered | pkg/router/handler.go:252-257 | a suppressed change is answered: a handler read the version of a later moment for its replay, or the replay is still to come |
| Metering.ActsExactly | pkg/router/handler.go:207-213 | a reservation may act at a time if and only if, for each earlier one, there are no more from it on than the burst of ten and one for every five seconds since: neither earlier nor later |
| Metering.AlwaysAgrees | pkg/router/handler.go:192-237 | in every reachable state the limiter of a key has exactly the reservations of the plain changes that asked since it was last forgotten, and the key waits exactly if the events say so |
| Metering.BeginExactly | pkg/router/handler.go:192-257 | a job that is begun goes ahead if and only if it is triggered or a replay, or its key does not wait and the rate, by counting the events of the run, allows it; else it is dropped, and its key waits for the replay it has or for one when its own request is due |
| Metering.RequestsAreRateBound | pkg/router/handler.go:207-213 | of the plain changes of a key since its limiter was last forgotten, as the events of a run list them, at most 10 + T/5 go ahead or have their replay due in any window of T seconds |
| HandlerSets.HandlerSet.CheckDelay | pkg/router/handler.go:192-231 | the method is the step of the machine: it says no while the key waits, and else says yes exactly if the reservations asked so far and this one allow it by counting |
| HandlerSets.HandlerSet.OnChange | pkg/router/handler.go:239-286 | what becomes of a queue key: suppressed, failed, or handled with the object read again, and a limiter forgotten only when the object is gone |
| HandlerSets.HandlerSet.WakeUp | pkg/router/handler.go:219-227 | ends one wait and queues a key that always decodes to a replay |
| Codecs.TriggerIsRecovered | pkg/router/handler.go:239-250 | a triggered key is recovered, and as triggered, if and only if it does not start with the replay prefix |
| Codecs.ReplayIsRecovered | pkg/router/handler.go:226-250 | a replay is recovered for every key |
| Codecs.DelayedIsRecovered | pkg/runtime/backend.go:61-77 | a delayed key comes back as a plain one if and only if it starts with no slash and no prefix |
| Codecs.ParseFormatted | pkg/runtime/controller.go:326-341 | parsing undoes formatting if and only if no slash can be mistaken |
| Codecs.FormatParsed | pkg/runtime/controller.go:326-341 | formatting undoes parsing up to one leading slash |
| Codecs.PrefixedIsSpecial | pkg/runtime/controller.go:264-272 | the controller looks up no object for a key that the handler takes for a trigger or a replay |
| Codecs.GVKIsRecovered | pkg/apply/desiredset_owner.go:19-27 | the stamped text gives back the GVK if and only if no part contains what separates the parts |
| Finalizers.SuffixAfterDeletion | pkg/router/finalizer.go:30-71 | after deletion the finalizers are always a suffix of what they were at deletion |
| Finalizers.AddedOnce | pkg/router/finalizer.go:19-28 | a finalizer is added at most once |
| Finalizers.SameListAsGiven | pkg/router/finalizer.go:65-66 | the list written, taken from the possibly stale object handed in, is the rest of the list of the version written to |
| Finalizers.RestIsRightExactly | pkg/router/finalizer.go:65-66 | at any two moments at which a name is at the head, the rest of the older list is the rest of the newer one, if and only if the list at deletion has no name twice |
| Finalizers.ComesBack | pkg/router/finalizer.go:65-66 | a run of the handler on any list that has its head again later: it removes nothing, and brings back what others took but for one name |
| Finalizers.LastOwnExactly | pkg/router/handlers.go:11-15 | the object of the request is known by kind, namespace and name; of several handed back the last one counts |
| Finalizers.FinalizerHandler.Handle | pkg/router/finalizer.go:13-74 | under optimistic locking with others acting before every call: adds if missing, exactly if the server takes the write, removes only at the head after the wrapped handler succeeded and last asked for no delay in that call, writes the list handed in less its head, and passes on what the wrapped handler replied |
| Finalizers.FinalizerHandler.Finalize | pkg/router/finalizer.go:34-71 | undisturbed, it does remove the finalizer; and a status the wrapped handler left is saved if the server takes it, or else nothing is written |
| HandlerChain.Handlers.Handle | pkg/router/handlers.go:41-65 | along a chain of finalizing and other handlers, all run whatever fails and failures are counted, every write is by a finalizing one with that licence; delays are merged, pruning is off if anyone forbade it, the last object taken for the object of the request is the one left, and all others in order go on to be saved |
| HandlerChain.LeftExactly | pkg/router/handlers.go:52-64 | the object a handler leaves is the last one of the request it handed back, or the one there was with the status it left on it |
| HandlerChain.MergedIsLeastExactly | pkg/router/handler.go:369-373 | the merged delay is the least one asked for if and only if no zero is among them, or the least is negative, or the last one is zero |
| HandlerChain.Response.RetryAfter | pkg/router/handler.go:369-373 | one request for a retry |
| Versions.NewerIsNumeric | pkg/runtime/cached.go:38-51 | on digit strings in range, leading zeros or not, newer is numerically smaller |
| Versions.NewerExactly | pkg/runtime/cached.go:38-51 | on numbers of any size, exactly when the answer is the numeric one |
| Versions.NewerMalformed | pkg/runtime/cached.go:38-51 | texts of different lengths that are no numbers: a malformed one counts as older than anything, and as newer than no number |
| Overlay.ReadIsReal | pkg/runtime/cached.go:113-142 | in every reachable state a read is not found exactly if the informer has nothing, and else is a version the server held, the newer of the informer's and the last remembered |
| Overlay.GoesBackExactly | pkg/runtime/cached.go:61-142 | a step makes a read go back if and only if it drops, or replaces by an older one, a write the informer does not have |
| Overlay.ReadsMoveOn | pkg/runtime/cached.go:61-142 | without such steps reads of a key never go back, however informers lag and others write |
| Overlay.ReadsOwnWrite | pkg/runtime/cached.go:96-142 | for ten seconds after a write is remembered every read that finds the object returns it or a newer version, purges or not |
| Overlay.SerialWritesAreOrdered | pkg/runtime/cached.go:96-111 | writes of a key begun one after another are remembered in version order |
| Overlay.CacheClient.Get | pkg/runtime/cached.go:113-142 | the method returns that version |
| Overlay.CacheClient.Write | pkg/runtime/cached.go:151-197 | only a successful write that goes through the cache is remembered |
| Overlay.CacheClient.PurgeRound | pkg/runtime/cached.go:70-77 | removes exactly the entries older than ten seconds |
| Controllers.NextKeeps | pkg/runtime/controller.go:242-262 | the queue holds exactly the dirty keys nobody works on; every step keeps that, and keeps a scheduled key scheduled until a worker takes it |
| Controllers.NoEnqueueIsLost | pkg/runtime/controller.go:289-357 | an accepted key, before or after the start, is scheduled until a later sync takes it |
| Controllers.FailedIsRetried | pkg/runtime/controller.go:255-258 | a key whose sync failed is scheduled, or has been taken again |
| Controllers.OneWorkerEach | pkg/runtime/controller.go:225-240 | no two workers have one key |
| Controllers.DelayIsKept | pkg/runtime/controller.go:313-324 | a delay is never made longer by putting the key off again |
| Controllers.PutOffComesBack | pkg/runtime/controller.go:255-324 | a key that is put off, by a request, by the rate limit or because its sync failed, comes back by its own delay at the latest |
| Controllers.StartKeyComesBack | pkg/runtime/controller.go:139-148 | a key put off before the start comes back by its delay after the start at the latest |
| Controllers.DelayWasAsked | pkg/runtime/controller.go:289-324 | no key is due at a time nobody asked for |
| Controllers.WorkExactly | pkg/runtime/controller.go:225-262 | a step makes a key need work exactly if it calls for it at once or its delay is over, and keys are being worked on exactly from being taken to being done |
| Controllers.KeepsAside | pkg/runtime/controller.go:289-324 | what is kept aside before the start: the key with the delay it was put off by, a rate-limited one without any |
| Controllers.FlushKeeps | pkg/runtime/controller.go:140-147 | every key kept aside before the start is in the queue made at the start |
| Controllers.Controller.Run | pkg/runtime/controller.go:139-148 | the loop over the start keys is the start step of the machine, with undelayed and delayed keys, and none stays behind |
| Controllers.Controller.ProcessSingleItem | pkg/runtime/controller.go:242-262 | a failed key is put back before it is marked done |
| Controllers.Controller.EnqueueAfter | pkg/runtime/controller.go:313-324 | kept aside with its delay before the start, delayed in the queue after it |
| Watchers.FollowIsInOrder | pkg/watcher/watcher.go:46-97 | what following the log means: each change after the start in order, none left out, the same one again only after a conflict, and every call but the last answered with neither done nor an error, or with a conflict |
| Watchers.OutcomeExactly | pkg/watcher/watcher.go:77-131 | no call comes after one that said done or failed; the watch ends without an error if and only if a call said done, which was the last and whose item is returned, and with the callback's error if and only if a call failed with it |
| Watchers.Watcher.DoWatch | pkg/watcher/watcher.go:29-98 | one connection follows the log from its revision, says to stop exactly if a call said done, and if it is to be resumed the revision returned is where the next one has to start; a revision that is gone is terminal, any other refusal is not |
| Watchers.Watcher.HandleChange | pkg/watcher/watcher.go:77-92 | one call, and by its reply: on to the next change exactly without done or error, stop exactly with done, again with a conflict, fail with another error; the last three leave the revision before the change |
| Watchers.Watcher.HandleEvent | pkg/watcher/watcher.go:51-97 | a bookmark moves the revision on, an error event ends the connection, and a change is shown once, after which the revision is the change's |
| Watchers.LastDoneExactly | pkg/watcher/watcher.go:191-206 | of a list shown, the item returned is the last one the callback said done on |
| Watchers.Watcher.ToDeliver | pkg/watcher/watcher.go:60-75 | a deleted object is shown with a deletion time and no finalizers |
| Watchers.Watcher.RetryWatch | pkg/watcher/watcher.go:100-131 | over any pattern of connections the whole watch follows the log; without an error if and only if the callback said done on the object returned; the first connection is from the revision given, one that finds it gone is the last, and the context's end is met only after all its waits |
| Watchers.Watcher.BySelector | pkg/watcher/watcher.go:177-220 | the list is shown up to the first error, also after done; if it settles nothing the watch follows the log from the list's revision |

## Left out

- Owner removal: `save` builds an owner for a deleted object but hands `Apply` none (pkg/router/save.go:22-28), so nothing is claimed about pruning a deleted owner's children.
- Ensure mode: it lists by key and never looks at the hash; it is in `process.dfy` and the engine, but ownership, convergence and idempotence are for the selector mode.
- Reconcilers: only that one may ask for a replacement; a reconciler that reports an update as handled (pkg/apply/desiredset_compare.go:227-233) is not modelled, and none of the built-in ones does so.
- Three-way and strategic merge, JSON text, gzip and base64: library code behind the laws named above.
- `sort.Slice` itself is library code, modelled as sorting by insertion; the theorems about passes hold for every order.
- Pointers: objects are values, so a caller that edits an object after the cache has stored it is not modelled.
- The server's admission, generated names and UIDs, and its refusal of new finalizers on a deleted object.
- Failures to find the scope of a kind are one case, an unknown scope that makes the kind's turn an error.
- Goroutine scheduling and locks: one atomic step per critical section; the work queue and its rate limiter are library code, modelled as sets and arbitrary back-off times.
- Shutting down and restarting a controller, and watches started from inside handlers: kinds are taken to be watched already.
- Saving the status of the handled object, the attributes of a response, and the watches that handing back an object registers.
- `sanitizePatch` with its flag set: no caller sets it.
- Cascade.EveryRunDrains: handlers neither fail nor ask for a retry, and the contents of the server are fixed.
- Leader election, REST configuration, webhooks, YAML, name helpers and logging: I/O, or helpers that would only add easy members.
