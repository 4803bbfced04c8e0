# Protocols of the Kubernetes examples, in Dafny

The repository is a collection of Kubernetes examples. Six of them are protocols or state machines,
and this project models those six and proves what they do over every run.

| files | what they model |
|---|---|
| `RedisLock.dfy`, `LeaseProtocol.dfy` | the Redis lease lock behind leader election, and N clients that compete for it through a network that delays, repeats and loses requests and answers |
| `SimpleAppFinalizer.dfy`, `SimpleAppReconciler.dfy` | the SimpleApp reconciler: finalizer, pods, deletion; every API call is a step that users, other controllers and pod terminations may come before or after |
| `Decimal.dfy`, `PodNames.dfy`, `Pods.dfy`, `PodScaling.dfy`, `PodOperator.dfy`, `PodPasses.dfy`, `PodStatus.dfy` | the PodManager operator: pod names, scaling, deletion with many managers, the condition list and its deep copy |
| `WorkQueue.dfy`, `WorkQueueController.dfy` | the rate-limited work queue with any number of workers, and the two worker loops written against it |
| `AdmissionWebhook.dfy` | the admission webhook: policy, JSON Patch, its application by section 4.1 of RFC 6902, validation |
| `QuotaProjects.dfy` | the quota scripts: project ids, the two files they edit, the limits |

A protocol is a state, a type of events, a total function `Step` (an event that is not enabled changes
nothing) and its iteration `Run`; its theorems quantify over every sequence of events. The code that
works on mutable objects is modelled by classes and loops. Its methods are proved against the functions
the protocol steps by, or, for a whole pass, against a function that is proved to be the run of the
pass's calls (`PodPasses`, `WorkQueueController.PassIsRun`). `Options.dfy` holds the one type they all share.

`dafny verify dfyconfig.toml` checks the whole project.

## What is assumed

- Lease: one clock for Redis and the clients; a key is visible while `now < expiry`; identities are
  unique and not empty; a client campaigns with its own id and its configured lease of at least a
  second. The rules about horizons and releases are not assumed: `ExclusionExactly` proves that
  exclusion holds if and only if they are followed (or there is only one client), and what the server
  alone guarantees (`RefinesLock`, `Handover`, `NoStealing`) is proved without them.
- SimpleApp and PodManager: fresh reads, at most one pass at a time per name, nobody else removes the
  controller's finalizer or creates pods that carry its labels. Pods may be deleted and disappear at any
  time; in the PodManager's namespace others may also create pods of their own, under any free name.
- Work queue: the queue is a library; it is modelled from the contract stated in the comments of the
  example (a key is held by one worker, a key added while held comes back when it is done). The limiter's
  delays are events that may come at any time.
- Quota: setup and teardown runs do not overlap; the file system is xfs; volume names consist of letters,
  digits, `-`, `_` and `.`, as the names of Kubernetes objects do. In a `sed` pattern only the dot among
  these is special.

## Where the code and its own words differ

- `Get` of the Redis lock answers a missing key with a NotFound error (`leader-election/redislock/redislock.go:56`),
  not with a nil error as the comment above it says (line 48). The model follows the code.
- The webhook's guide says that missing labels are added. The patch replaces the whole label table and
  the whole annotation table, so what an object had is lost (`PatchedObject`, `LabelsAreNotMerged`), and an
  object that already has its labels is mutated into one that validation rejects (`MutateThenValidate`).
- The Ready condition's message and time go stale: the message keeps the numbers of the pass in which the
  status last changed, and the transition time never moves (`ReadyEntry`).
- `Conditions[0]` is read before any condition exists: from an empty list every status update panics, for
  good (`ReadyExactly`).
- Scaling counts from the length of the list but deletes by position: `ScaleUpExactly`, `ScaleUpStops`,
  `ScaleDownExactly` and `ScaleDownThenUp` say when that converges and when it is stuck, `ChangingOrderSticks`
  that scaling down can end below the desired count for good. A list by name keeps `m-10` before `m-2`, so
  even a stable order can block a later scale-up.
- The operator deletes by name: a pod that somebody else created under a listed name in the meantime is
  deleted (`ForeignSurvivesExactly`, `StrangerRun`). Pods of other managers are never touched (`CallIsolation`).
- The teardown filter removes lines by pattern: `TeardownExactly` says when that is right, `OverMatch`,
  `ClashingNames` and `DotClash` what happens otherwise.
- A directory with a colon blocks every later setup, because the id is read up to the last colon
  (`NextSetupWorks`).

## Model

| member | source | states |
|---|---|---|
| `RedisLock.Redis.SetNX` | leader-election/redislock/redislock.go:71-73 | SET NX stores only over an invisible key; a zero duration means no expiry, a negative one is refused |
| `RedisLock.Redis.SetPX` | leader-election/redislock/redislock.go:100 | the script's SET PX replaces value and expiry, and is refused for a time-to-live that is not positive |
| `RedisLock.RedisLock.Get` | leader-election/redislock/redislock.go:49-65 | returns the record of the unexpired key, NotFound otherwise |
| `RedisLock.RedisLock.Create` | leader-election/redislock/redislock.go:68-82 | is the protocol's atomic Create, with every error outcome, through the seconds-valued duration |
| `RedisLock.RedisLock.Update` | leader-election/redislock/redislock.go:85-114 | the Lua read-check-write is the protocol's atomic Update, with every error outcome, through the millisecond-valued duration |
| `RedisLock.RefusalsKeepTheKey` | leader-election/redislock/redislock.go:73-101 | every outcome other than success leaves the key as it was; which refusal comes when, for both calls |
| `RedisLock.WhoCanWrite` | leader-election/redislock/redislock.go:73-101 | while Free exactly one of Create and Update succeeds and Get says which; while Held only the holder's Update does |
| `RedisLock.LeaseEndsOnTime` | leader-election/redislock/redislock.go:71-105 | Create and Update open the same lease, which ends after exactly its seconds; a zero duration in Create never ends |
| `LeaseProtocol.RunInv` | leader-election/redislock/redislock.go:68-114 | every event keeps the invariant: the key is the last applied write, and leaders and live acknowledgements are covered by it |
| `LeaseProtocol.LeaseMutualExclusion` | leader-election/redislock/redislock.go:68-114 | in every run at most one client is inside its horizon, and its id is the unexpired holder in Redis |
| `LeaseProtocol.ExclusionExactly` | leader-election/redislock.go:92-97 | exclusion holds over every run if and only if there is one client or all rules (horizon within lease, stop before release, no campaign with a release under way) are followed |
| `LeaseProtocol.LongHorizonBreaks` | leader-election/redislock.go:40-42 | with a renew deadline beyond the lease there is a run with two leaders |
| `LeaseProtocol.LeadingReleaseBreaks` | leader-election/main.go:119-125 | a client that releases while it still leads gives a run with two leaders |
| `LeaseProtocol.LateReleaseBreaks` | leader-election/redislock.go:94 | a client that campaigns while its own release may still arrive gives a run with two leaders |
| `LeaseProtocol.ServerRunInv` | leader-election/redislock/redislock.go:88-101 | for clients of any discipline the key is the last applied write, and no write follows another holder's record before that ran out |
| `LeaseProtocol.RefusedChangesNothing` | leader-election/redislock/redislock.go:90-96 | a request that is refused leaves the whole state as it was |
| `LeaseProtocol.RefinesLock` | leader-election/redislock/redislock.go:49-114 | every step of every run is a grant from Free, the holder's renewal (never shortened) or release, an expiry, or nothing, of the abstract lock, also where clients break the rules |
| `LeaseProtocol.Handover` | leader-election/redislock/redislock.go:49-101 | in every reachable state Get sees the last applied write unless it ran out, the lock is Held exactly until that write's time-to-live ends, and a Free lock admits exactly the call Get points to |
| `LeaseProtocol.NoStealing` | leader-election/redislock/redislock.go:88-101 | when the stored holder goes from a to b, a's last write was its own release or had run its full time before the next write |
| `WorkQueue.QueueSafety` | client-go/workqueue/main.go:32-38 | in every run a key has one holder, is queued at most once and exactly when pending and not held, and its retry count stays within five |
| `WorkQueue.FirstInFirstOut` | client-go/workqueue/main.go:33 | in every run the queued keys are handed out in order of arrival, before every key that is added or comes back later |
| `WorkQueue.ShutDownForGood` | client-go/workqueue/main.go:114-118 | after shutdown only keys that were pending are handed out, nothing is accepted any more, and workers stop on the empty queue |
| `WorkQueue.CancelledForGood` | client-go/workqueue/main.go:106-111 | a worker cancelled between two keys never takes another |
| `WorkQueue.CheckNeedsExclusivity` | client-go/workqueue/main.go:153-165 | whenever two workers hold one key with a count just below the limit, the check-then-add can count past it |
| `WorkQueue.NoLostUpdate` | client-go/workqueue/main.go:56-80 | an event before shutdown leaves its key pending until the next Get of it, also while it is being processed |
| `WorkQueue.DrainBound` | client-go/workqueue/main.go:144-165 | once events stop, every schedule's Gets are paid for by a measure over waiting, dirty and held tokens and failure counts |
| `WorkQueue.ChronicFailureIsDropped` | client-go/workqueue/main.go:153-165 | the bound is exact: a key that failed n times and keeps failing is taken 6 - n more times and then forgotten |
| `WorkQueue.DrainedMeansDone` | client-go/workqueue/main.go:160-165 | when no worker is busy and nothing waits, no key is pending |
| `WorkQueueController.RateLimitingQueue.AddKey` | client-go/workqueue/main.go:62 | Add marks the key and queues it unless it is pending, held or the queue is shutting down |
| `WorkQueueController.RateLimitingQueue.GetKey` | client-go/workqueue/main.go:114-118 | Get takes the oldest key and marks it held; on an empty queue it blocks, or reports quit when the queue shuts down |
| `WorkQueueController.RateLimitingQueue.DoneKey` | client-go/workqueue/main.go:123-127 | Done releases the key and queues it again if it was added meanwhile |
| `WorkQueueController.Controller.HandleErr` | client-go/examples-from-other-repo/client-go-official-examples/workqueue/main.go:93-116 | forget on success or at the limit, otherwise count and requeue |
| `WorkQueueController.Controller.HandleErrGiveUpFirst` | client-go/workqueue/main.go:144-165 | the other order of the same tests decides the same |
| `WorkQueueController.Controller.ProcessNextItem` | client-go/examples-from-other-repo/client-go-official-examples/workqueue/main.go:53-69 | one pass takes the oldest key, settles it and runs the deferred Done; it ends the loop only on quit |
| `WorkQueueController.PassIsRun` | client-go/workqueue/main.go:103-168 | the pass of the code is the protocol's run of its events |
| `WorkQueueController.Controller.RunWorker` | client-go/examples-from-other-repo/client-go-official-examples/workqueue/main.go:142-145 | an undisturbed worker processes exactly the queued keys, once each and in order, settles every count and re-add, and leaves nothing pending but what others hold |
| `SimpleAppFinalizer.RunInv` | finalizer-example/finalizer.go:32-189 | every interleaving keeps pods under the protection of the finalizer of the app object that owns them |
| `SimpleAppFinalizer.NoOrphans` | finalizer-example/finalizer.go:84-140 | once the app is gone no pod with its labels is left, and every pod belongs to the current app object, never to an earlier one of the name |
| `SimpleAppFinalizer.StepMeasure` | finalizer-example/finalizer.go:84-140 | under deletion the measure never grows and drops on every pod deletion, pod termination and finalizer removal |
| `SimpleAppFinalizer.PassMakesProgress` | finalizer-example/finalizer.go:95-139 | every error-free pass that finds a live pod or no pod lowers the measure, whatever happens during it, by one more than the terminations meanwhile |
| `SimpleAppFinalizer.DeletionBound` | finalizer-example/finalizer.go:84-140 | over every run under deletion, however cut into passes, useful passes and terminations together never exceed the measure |
| `SimpleAppFinalizer.DeletionCompletes` | finalizer-example/finalizer.go:119-139 | from every state under deletion between passes, passes and pod terminations alone lead to the end of the object, or to exactly the finalizers of others |
| `SimpleAppFinalizer.CallKeepsObject` | finalizer-example/finalizer.go:52-139 | in every interleaving no call touches the identity, the spec or other controllers' finalizers; the object ends only under deletion and with none of those left |
| `SimpleAppFinalizer.FinalizerPass` | finalizer-example/finalizer.go:50-60 | a pass on a live app without the finalizer adds it to those there are and does nothing else |
| `SimpleAppFinalizer.PodPass` | finalizer-example/finalizer.go:62-80 | a pass on a live app with the finalizer creates the missing pod and reports the app ready for its generation |
| `SimpleAppFinalizer.ReadinessCompletes` | finalizer-example/finalizer.go:50-80 | from every state with a live app between passes, error-free passes lead to the finalizer, a pod and an up-to-date status |
| `SimpleAppReconciler.Reconciler.Reconcile` | finalizer-example/finalizer.go:32-81 | a pass is a run of the protocol's calls, whichever of them fail; every error ends it and is reported; and what a pass without error leaves, exactly, for a live app, one under deletion and none |
| `SimpleAppReconciler.Reconciler.HandleDeletion` | finalizer-example/finalizer.go:84-140 | lists, deletes all and waits, or removes the finalizer when the list is empty; fails exactly when a call does |
| `SimpleAppReconciler.Reconciler.DeleteAll` | finalizer-example/finalizer.go:109-117 | the loop's calls are the protocol's; it marks every listed pod, skips those that are gone, and stops at the first error |
| `SimpleAppReconciler.Reconciler.ReconcilePods` | finalizer-example/finalizer.go:143-189 | creates the one live pod, owned by the app, when none is listed and changes nothing otherwise |
| `SimpleAppReconciler.Reconciler.DropFinalizer` | finalizer-example/finalizer.go:131-136 | without error the object is gone, or keeps exactly the finalizers of others |
| `SimpleAppReconciler.Reconciler.WriteStatus` | finalizer-example/finalizer.go:69-76 | without error the status is ready and observed at the app's generation, and nothing else changes |
| `Decimal.RenderRoundTrip` | pod-operator/controllers/podmanager_controller.go:198 | the decimal text of an index reads back as that index |
| `PodNames.PodNameInjective` | pod-operator/controllers/podmanager_controller.go:195-198 | manager and non-negative index can be read back from "%s-%d" |
| `PodNames.NegativeIndexCollides` | pod-operator/controllers/podmanager_controller.go:198 | with negative indices every manager's names would collide with another's |
| `PodScaling.Namespace.CreateMissing` | pod-operator/controllers/podmanager_controller.go:81-89 | the creating loop fills the names up to the first taken one, and succeeds exactly when none is taken |
| `PodScaling.Namespace.DeleteSurplus` | pod-operator/controllers/podmanager_controller.go:92-99 | the deleting loop marks the listed pods from the desired position on, up to the first that is gone, which is an error |
| `PodScaling.Namespace.AdjustPods` | pod-operator/controllers/podmanager_controller.go:75-100 | the two branches compute one pass; it succeeds exactly when no needed name is taken |
| `PodScaling.Namespace.DeleteOwned` | pod-operator/controllers/podmanager_controller.go:160-170 | the cleanup loop marks exactly the listed pods that still exist |
| `PodScaling.CreateFromReaches` | pod-operator/controllers/podmanager_controller.go:81-87 | creation takes exactly the names up to the first taken one; every new pod is the manager's and live, every other as it was |
| `PodScaling.ScaleUpExactly` | pod-operator/controllers/podmanager_controller.go:79-89 | repeated passes reach the desired count, of live pods if all were live, if and only if no index from the current to the desired count is taken, and never exceed it |
| `PodScaling.ScaleUpStops` | pod-operator/controllers/podmanager_controller.go:81-87 | otherwise they stop for good at the smallest taken index |
| `PodScaling.ScaleDownExactly` | pod-operator/controllers/podmanager_controller.go:90-99 | over every interleaving of passes with any list orders and terminations, as many pods as desired stay live if and only if no list has one of them behind the desired position; then exactly those are left |
| `PodScaling.StableScaleDown` | pod-operator/controllers/podmanager_controller.go:90-99 | with a fixed list order the first desired pods stay in every interleaving, nothing is created, and the count ends at the desired one |
| `PodScaling.ScaleDownThenUp` | pod-operator/controllers/podmanager_controller.go:81-93 | after a completed scale-down, scaling up converges if and only if no kept pod and no foreign pod has an index in the new range, and otherwise stops for good at the smallest |
| `PodScaling.ChangingOrderSticks` | pod-operator/controllers/podmanager_controller.go:90-99 | for every manager, two differently ordered lists turn a scale-down from three to two into one pod, stuck there for good |
| `PodOperator.RunInv` | pod-operator/controllers/podmanager_controller.go:36-183 | every interleaving of any number of managers, users and strangers keeps the invariant on managers, pods, passes and released uids |
| `PodOperator.ReleasedForGood` | pod-operator/controllers/podmanager_controller.go:146-183 | once the finalizer is removed every pod with that uid label is terminating or gone, and none is created in any continuation |
| `PodOperator.CallIsolation` | pod-operator/controllers/podmanager_controller.go:66-100 | in every run a call for one manager leaves every pod with another uid label exactly as it was |
| `PodOperator.ForeignSurvivesExactly` | pod-operator/controllers/podmanager_controller.go:93 | a stranger's pod survives a call if and only if the call is not a Delete of its name that reaches the server |
| `PodOperator.StrangerDeleted` | pod-operator/controllers/podmanager_controller.go:160-170 | whenever a pass is about to delete a name, that pod's end and a stranger's pod of the name come between and the pass deletes the stranger's |
| `PodOperator.StrangerRun` | pod-operator/controllers/podmanager_controller.go:146-170 | for every manager there is such a run from the start |
| `PodPasses.ScalingPassIsRun` | pod-operator/controllers/podmanager_controller.go:66-134 | the calls of an undisturbed scaling pass have the effect of the whole pass that the scaling theorems are about, and end in an error exactly when it does |
| `PodPasses.FinalizerPassIsRun` | pod-operator/controllers/podmanager_controller.go:55-63 | an undisturbed pass on a live manager without the finalizer adds it to those there are and does nothing else |
| `PodPasses.DeletesRun` | pod-operator/controllers/podmanager_controller.go:90-99 | the deleting calls mark the list up to the first pod that is gone, and end in an error exactly if there is one |
| `PodPasses.CleanupPassIsRun` | pod-operator/controllers/podmanager_controller.go:146-183 | the calls of an undisturbed cleanup pass mark exactly the manager's own pods and release it; it is gone, or keeps exactly the finalizers of others |
| `PodOperator.NoContention` | pod-operator/controllers/podmanager_controller.go:195-229 | a taken name belongs to a foreign pod or to a manager of the same name |
| `PodOperator.CallKeepsManagers` | pod-operator/controllers/podmanager_controller.go:50-183 | in every run a call leaves other managers as they are, and of its own the identity, the spec and the finalizers of others |
| `PodStatus.PodManagerStatus.SetCondition` | pod-operator/api/v1/podmanager_types.go:70-80 | the loop replaces the entry only when its status changes, or appends, in the shared array when there is room |
| `PodStatus.PodManagerStatus.DropAt` | pod-operator/api/v1/podmanager_types.go:86 | append(c[:i], c[i+1:]...) shifts the tail down in place and leaves the last slot as it was |
| `PodStatus.PodManagerStatus.RemoveCondition` | pod-operator/api/v1/podmanager_types.go:83-90 | removes the first entry of the type |
| `PodStatus.KnownKind` | pod-operator/api/v1/podmanager_types.go:71-87 | a known type is replaced in its place, and only when its status differs; its removal closes the gap |
| `PodStatus.NewKind` | pod-operator/api/v1/podmanager_types.go:79 | a new type goes to the end of the list |
| `PodStatus.ConditionsRefineMap` | pod-operator/api/v1/podmanager_types.go:70-90 | any sequence of operations keeps types unique and acts as on a map whose entry changes only with its status |
| `PodStatus.PodManagerStatus.DeepCopy` | pod-operator/api/v1/zz_generated.deepcopy.go:105-125 | a fresh object with a fresh array and the same contents; nil stays nil |
| `PodStatus.ChangeCopy` | pod-operator/api/v1/zz_generated.deepcopy.go:105-125 | any sequence of operations on a deep copy leaves the original as it was |
| `PodStatus.ChangeSharedCopy` | pod-operator/api/v1/zz_generated.deepcopy.go:106 | on a plain struct copy a removal corrupts the original's list |
| `PodStatus.CountReady` | pod-operator/controllers/podmanager_controller.go:103-114 | counts exactly the listed pods that run and have a true Ready condition, each once |
| `PodStatus.UpdateStatus` | pod-operator/controllers/podmanager_controller.go:102-134 | sets both counts and the Ready condition; panics exactly on an empty condition list |
| `PodStatus.ReadyExactly` | pod-operator/controllers/podmanager_controller.go:119-134 | after every run of passes the Ready entry exists exactly if the list was not empty, and is True exactly when ready equals desired and desired is positive |
| `PodStatus.ReadyEntry` | pod-operator/controllers/podmanager_controller.go:119-134 | the Ready entry after any run of passes, to the letter: the report of the pass in which the status last changed, with the first condition's time; no other entry changes |
| `AdmissionWebhook.UpdateAnnotation` | webhook/using-byhand/by-service/webhook.go:154-174 | the loop's operations, for every iteration order: from the first unset key on each one replaces the whole table |
| `AdmissionWebhook.UpdateLabels` | webhook/using-byhand/by-service/webhook.go:177-190 | one add of exactly the labels that are missing or empty, for every iteration order |
| `AdmissionWebhook.CreatePatch` | webhook/using-byhand/by-service/webhook.go:193-201 | annotation operations, then the label operation |
| `AdmissionWebhook.PolicyExactly` | webhook/using-byhand/by-service/webhook.go:103-151 | the two system namespaces are exempt; every other object is mutated or validated unless its own annotation says no, or its status mutated, in any letter case |
| `AdmissionWebhook.SixLabels` | webhook/using-byhand/by-service/webhook.go:38-55 | the required and the added labels are the six, and not available is what is added |
| `AdmissionWebhook.Mutate` | webhook/using-byhand/by-service/webhook.go:273-340 | which reviews panic, are refused, pass unpatched, or get the one patch, by that policy and whatever the iteration orders |
| `AdmissionWebhook.Validate` | webhook/using-byhand/by-service/webhook.go:204-270 | admits exactly the exempt objects and those that have all six labels |
| `AdmissionWebhook.PatchedObject` | webhook/using-byhand/by-service/webhook.go:320-322 | the patch always applies and leaves only the status annotation and those of the six labels that had no value, as not available |
| `AdmissionWebhook.MutateThenValidate` | webhook/using-byhand/by-service/webhook.go:244-269 | a mutated object is always validated, and admitted if and only if none of the six labels had a value before |
| `AdmissionWebhook.MutationIdempotent` | webhook/using-byhand/by-service/webhook.go:129-144 | a second pass of mutation changes nothing, for every object |
| `AdmissionWebhook.LabelsAreNotMerged` | webhook/using-byhand/by-service/webhook.go:184-188 | no label with a value survives mutation |
| `AdmissionWebhook.LastAnnotationWins` | webhook/using-byhand/by-service/webhook.go:155-164 | with a nil target only the last iterated annotation survives |
| `AdmissionWebhook.AnnotationOrderMatters` | webhook/using-byhand/by-service/webhook.go:155-171 | for every object and target: the result is the same for every iteration order if and only if at most one annotation is added, or all have a value already and no two clash |
| `AdmissionWebhook.ReplaceStatusFails` | webhook/using-byhand/by-service/webhook.go:166-170 | the replace operation for the status key cannot be applied to any object |
| `AdmissionWebhook.EscapedReplaceWorks` | webhook/using-byhand/by-service/webhook.go:166-170 | with the key escaped it would work on every object that has the annotation |
| `QuotaProjects.Host.RunSetup` | template/examples-form-rancher-local-path-provisioner/quota/setup:14-27 | next id, the two appends, the limit of the project the name resolves to; nothing when the arithmetic on the last line fails |
| `QuotaProjects.Host.RunTeardown` | template/examples-form-rancher-local-path-provisioner/quota/teardown:11-18 | the limit reset, then both files without the lines the name matches as a pattern |
| `QuotaProjects.IdsIncrease` | template/examples-form-rancher-local-path-provisioner/quota/setup:14-23 | ids strictly increase line by line after any allotments and any filterings, and the next id is above them all |
| `QuotaProjects.NextIdFollowsLast` | template/examples-form-rancher-local-path-provisioner/quota/setup:14-21 | the next id is one above the last line's, and 1 where there is none |
| `QuotaProjects.NextSetupWorks` | template/examples-form-rancher-local-path-provisioner/quota/setup:14-20 | after a setup the following one can read an id if and only if the directory has no colon |
| `QuotaProjects.ScriptIdsIncrease` | template/examples-form-rancher-local-path-provisioner/quota/teardown:17 | the same for every run of the two scripts, whatever names they are given |
| `QuotaProjects.LookupLive` | template/examples-form-rancher-local-path-provisioner/quota/setup:27 | the limit command finds the live project of that name and nothing else |
| `QuotaProjects.SetupAgrees` | template/examples-form-rancher-local-path-provisioner/quota/setup:14-27 | a new volume gets an unused id without a limit, one line in each file, and its size as limit |
| `QuotaProjects.TeardownExactly` | template/examples-form-rancher-local-path-provisioner/quota/teardown:17-18 | exactly the torn-down volume leaves both files if and only if its name, as a pattern, matches no other live line |
| `QuotaProjects.TeardownAgrees` | template/examples-form-rancher-local-path-provisioner/quota/teardown:11-18 | then the tables still agree without it |
| `QuotaProjects.TablesAgree` | template/examples-form-rancher-local-path-provisioner/quota/setup:23-27 | over every run without name clashes the files correspond one to one by id and only live ids have limits |
| `QuotaProjects.NextIdIsFree` | template/examples-form-rancher-local-path-provisioner/quota/setup:14-21 | after every such run the next setup can read an id, and that id is unused and carries no old limit |
| `QuotaProjects.OverMatch` | template/examples-form-rancher-local-path-provisioner/quota/teardown:17-18 | a volume whose name the torn-down one matches loses its line but keeps its limit |
| `QuotaProjects.ClashingNames` | template/examples-form-rancher-local-path-provisioner/quota/teardown:17-18 | for every such pair a run of three steps ends with the next volume getting the other's id and limit |
| `QuotaProjects.DotClash` | template/examples-form-rancher-local-path-provisioner/quota/teardown:17-18 | a name with a dot and the same name with any other character there are such a pair |

## Left out

- The HTTP servers, TLS, flags, logging, event recording and JSON byte encoding: input and output.
- The client-go leader elector, informers, caches, the limiter's delays: library code; only the contracts listed above are used.
- The other client-go demos, the scheduler extender, conversion, defaulting, feature gates, the Calculate controller and webhook, the bare-metal webhook: a few independent branches each.
- Clock drift between Redis and the clients, and Redis failover: the lease protocol has one clock and one key that is not lost.
- A stored value that is not valid JSON: only the lock itself writes the key.
- The `int` overflow of a lease duration above nine billion seconds.
- Pods without the SimpleApp's labels: one in the way of a Create is an error of that call; that a Delete by name can hit one is shown for the PodManager.
- `AdmissionWebhook.Mutate`: lower-cases ASCII letters only, which decides the same for the words it is compared with.
- `QuotaProjects.Host.RunSetup`: the volume's directory and the `project -s` and report commands are not modelled; nor is shell arithmetic on lines the scripts do not write (a variable name, an octal number), and a name has no line break.
