# Cubernetes, verified

A Dafny model of the state machines and algorithms of Cubernetes, a small Kubernetes-like system
written in Go, with proofs of what they keep and where they fall short. Each file is one module, and
follows one component:

| files | component |
|---|---|
| `Graphs`, `Dag`, `Actions` | the cycle check, and the action store that uses it to stay acyclic |
| `NatTable`, `ServiceChains`, `ProxyRuntime` | services compiled into chains of the nat table, and taken down again |
| `Balance`, `Packets` | the chances written into those chains, and where a packet goes |
| `PodInformer`, `PodCaches`, `EventCounts`, `ReplicaSets`, `RunningLists`, `Reconciles`, `ReplicaSetController`, `Slices` | the ReplicaSet control loop, from pod watch to reconcile |
| `Heartbeat` | the reconnect protocol of a node |
| `Tsdb` | the sliding-window counter |
| `Addresses`, `ClusterIP` | addresses as bytes and numbers, and the service address allocator |
| `RoundRobin` | the scheduler and the node watch that feeds it |
| `PodActions` | the container start/kill plan of a node |
| `Compare`, `CubeletInformer` | object comparison, and the informer that suppresses events by it |
| `AutoScaler` | the scale decision and the lower ReplicaSet's life |
| `Gateway` | matching replies with requests |
| `Options`, `Quotients`, `GoIntegers` | shared helpers |

Code that updates fields in place is a class whose methods are proved against functions of the old
state; the properties are lemmas about those functions and about whole runs. Goroutines are
interleaved atomic steps. API-server calls are parameters that say how the call answers, UUIDs are a
fresh-name oracle, and times are parameters. A Go map's iteration order is left arbitrary.

## Where the code does not keep its promise

Each of these is a lemma with the exact condition, and with a concrete case where one helps:

- A service is taken down only under the ports, protocols and address it was added with
  (`TakenDownUnderSamePorts`). A removal event carries nothing but the UID, so it takes down no
  service that has a port (`RemovalEventTakesNothingDown`); all it does is flush the first pod chain,
  which loses its DNAT rule (`RemovalEventFlushesFirstPod`). An update is torn down under the new
  spec (pkg/cubeproxy/cubeproxy.go:106). `StoppedAt` says what any failed deletion leaves.
- Put may give an action another action's name. The store then loses unique names
  (`PutKeepsValidIff`), and a later Post can close a cycle unnoticed (`TakenNameHidesCycle`).
- The address search fixes its candidate before the loop, so it runs forever if the address at
  `nextIP` is taken (`SpinsIff`), for example after a service asked for that address
  (`RequestingNextSpins`). `RepairedSearch` is a repaired loop, labelled as such, that ends.
- A reconcile reaches the wanted number of pods if and only if no running pod outside the surplus is
  still to run or to be killed (`ReconcileReachesReplicasIff`). A pod that runs while its create event
  still waits is such a pod: with one replica wanted, the reconcile deletes it and creates no other
  (`QueuedCreateIsKilled`). Pods whose events are handled are safe (`HandledIsUndisturbed`).
- A reconcile that lists pods while events are queued can list a pod twice
  (`QueuedCreateIsListedTwice`); `ListingIsAccurateIffClean` says exactly when it does not.
- A negative number of replicas lets a slice reach past its length into its capacity, where it finds
  empty UIDs; the reconcile panics only when it exceeds the capacity (`CheckAndUpdate`).
- The scheduler's int32 counter turns negative after 2^31 calls; `PanicIff` says which calls panic.
- Two spec containers that share the name of one running container break the container plan
  (`KillsTheRestIff`); it panics exactly when containers are kept more often than there are any
  (`PanicsIff`, `SharedNamePanics`).
- The comparison of services sees exactly the changes that matter if and only if the old ports are
  all different (`ServiceChangeExactIff`); a repeated port hides a change.
- A failed write to the lower ReplicaSet leaves it behind the desired number (`NextInStepIff`), and
  then no check scales again while its pods run (`OutOfStepSticks`).
- Above 200 pods the first pod gets no packets (`AllServedUpTo200`).
- `QueryLastMinute` covers 1000 ms; the model follows the code.

## Model

| member | source | states |
|---|---|---|
| Dag.CheckLoop | pkg/utils/dag/dag.go:3-40 | for every map iteration order: a loop is reported iff the graph of keys and destinations has a cycle, and the returned nodes, each once, are exactly those reachable from a cycle |
| Dag.CountIndegrees | pkg/utils/dag/dag.go:4-12 | every key and every destination gets a counter, and each counter is the number of edges, with multiplicity, into it |
| Dag.SubEdges | pkg/utils/dag/dag.go:20-22 | decrements keep the key set: no deleted key comes back, each counter drops by the multiplicity of its edges |
| Dag.DeleteNode | pkg/utils/dag/dag.go:18-24 | deleting a node of degree zero leaves counters that again count exactly the edges from surviving nodes, with the deleted nodes in an order that lists predecessors first |
| Dag.Sweep | pkg/utils/dag/dag.go:16-25 | one pass either deletes something and shrinks the rest, or leaves only nonzero counters |
| Dag.SurvivorsAreFedByCycle | pkg/utils/dag/dag.go:26-35 | when no counter is zero the surviving nodes are exactly those some cycle leads to |
| Graphs.CycleHasFedNode | pkg/utils/dag/dag.go:31-39 | some node is reachable from a cycle iff there is a cycle, so a nonempty rest means a loop |
| Actions.ActionServer.PostAction | cmd/apiserver/httpserver/restful/action.go:26-81 | each answer with its effect on the store, store failures included; on a valid store it stores iff the graph with the new action is acyclic, and otherwise names its cyclic part |
| Actions.ActionServer.PutAction | cmd/apiserver/httpserver/restful/action.go:83-140 | each answer with its effect; with unique names and no name taken it stores iff the resulting graph is acyclic |
| Actions.ActionServer.DelAction | cmd/apiserver/httpserver/restful/action.go:142-159 | the answer for each case, and the store without the action iff it was deleted |
| Actions.CheckedIsStored | cmd/apiserver/httpserver/restful/action.go:104-132 | the graph handed to the cycle check is the graph of the store after the write, unless a name is taken |
| Actions.PostIsAnswered | cmd/apiserver/httpserver/restful/action.go:44-75 | the graph Post checks is that of the store after it writes the old object of the name, or a new one |
| Actions.PutKeepsValidIff | cmd/apiserver/httpserver/restful/action.go:102-132 | an accepted Put keeps names unique and the graph acyclic iff it takes no other action's name |
| Actions.NextKeepsValid | cmd/apiserver/httpserver/restful/action.go:26-159 | every single request that takes no name keeps the store valid |
| Actions.DeleteKeepsValid | cmd/apiserver/httpserver/restful/action.go:154-159 | a deletion keeps names unique and the graph acyclic |
| Actions.RunKeepsValid | cmd/apiserver/httpserver/restful/action.go:26-159 | every store reachable by Post, Put and Delete without name-taking Puts has unique names and an acyclic graph |
| Actions.TakenNameHidesCycle | cmd/apiserver/httpserver/restful/action.go:111-127 | a concrete valid store, a Put that takes a name and a Post after which the store has a cycle |
| NatTable.IPTables.Insert | pkg/cubeproxy/proxyruntime/serviceiptables.go:22-26 | the rule goes in front of all others of the chain; it fails iff the chain or the jump target is missing |
| NatTable.IPTables.Append | pkg/cubeproxy/proxyruntime/serviceiptables.go:47-60 | the rule goes behind all others of the chain, under the same conditions |
| NatTable.IPTables.DeleteIfExists | pkg/cubeproxy/proxyruntime/serviceruntime.go:148-152 | the first equal rule goes, the table is otherwise unchanged, and a missing one is no error |
| NatTable.IPTables.ClearAndDeleteChain | pkg/cubeproxy/proxyruntime/serviceruntime.go:159-168 | deleting fails iff some rule still jumps to the chain |
| ServiceChains.InstallKeepsConsistent | pkg/cubeproxy/proxyruntime/serviceiptables.go:11-83 | installing a port under fresh names keeps table and record in agreement: every chain recorded, every jump target present, every SERVICE rule owned |
| ServiceChains.InstallAllKeepsConsistent | pkg/cubeproxy/proxyruntime/serviceruntime.go:74-80 | the same for all ports of a service |
| ServiceChains.OnlyOwnRuleFreesChain | pkg/cubeproxy/proxyruntime/serviceruntime.go:148-163 | after a SERVICE rule is deleted the port's chain can be deleted iff it was that port's own rule |
| ServiceChains.DropJumpKeepsConsistent | pkg/cubeproxy/proxyruntime/serviceruntime.go:147-164 | the first pass keeps agreement, with the pod chains as known leftovers |
| ServiceChains.DropOrphanKeepsConsistent | pkg/cubeproxy/proxyruntime/serviceruntime.go:166-173 | in the second pass no remaining rule refers to the pod chain deleted, and agreement stays |
| ServiceChains.PodChainHeld | pkg/cubeproxy/proxyruntime/serviceruntime.go:166-173 | a pod chain whose service chain is still there cannot be deleted |
| ServiceChains.RemovedUndoesInstall | pkg/cubeproxy/proxyruntime/serviceruntime.go:139-183 | taking all ports out after putting them in restores the nat table exactly, rule order included |
| ProxyRuntime.Runtime.MapPortToPods | pkg/cubeproxy/proxyruntime/serviceiptables.go:11-83 | the table gets one fresh service chain with its SERVICE rule in front, one pod chain and one rule per pod, and the index slots name them |
| ProxyRuntime.Runtime.AddService | pkg/cubeproxy/proxyruntime/serviceruntime.go:13-136 | when it succeeds, and then: what was recorded is taken down and the service compiled for its running pods with an address; what each failure leaves |
| ProxyRuntime.Runtime.DeleteService | pkg/cubeproxy/proxyruntime/serviceruntime.go:139-183 | it succeeds iff the UID is unknown or the given spec asks for the SERVICE rules that were made; then table, index and record lose exactly that service. If it fails, index and record stay, and the table is the one after the ports that matched, with one chain flushed |
| ProxyRuntime.Runtime.DeleteJump | pkg/cubeproxy/proxyruntime/serviceruntime.go:148-163 | deleting rule and service chain works iff the rule is the recorded one |
| ProxyRuntime.Runtime.DeleteRow | pkg/cubeproxy/proxyruntime/serviceruntime.go:166-173 | all pod chains of a port go, and no deletion hits a chain still referenced, iff its service chain is gone |
| ProxyRuntime.Runtime.ReplaceService | pkg/cubeproxy/cubeproxy.go:104-117 | whatever the new spec is: delete and add succeed iff adding would, and then leave the service rebuilt for its current endpoints and table, index and record in agreement; no other service's record changes; what each failure leaves |
| ProxyRuntime.Runtime.ModifyPod | pkg/cubeproxy/proxyruntime/serviceruntime.go:185-209 | the services whose selector matches the pod are rebuilt one after the other, and table, index and record agree when all succeed; if not, which service it stopped at, and how; with one spec for each UID they agree even then |
| ProxyRuntime.AfterPodChange | pkg/cubeproxy/proxyruntime/serviceruntime.go:185-209 | after it, each matching service is recorded as compiled for its current endpoints, or not at all without any, and every other service is unchanged |
| ProxyRuntime.Runtime.Sync | pkg/cubeproxy/cubeproxy.go:86-151 | when it ends well each event did its work, one after the other: a create or update rebuilt its service, a removal took it down, a pod change rebuilt the matching services; otherwise the event at which it stopped, with everything before it done. After success table, index and record agree, with one spec for each UID even after a failure |
| ProxyRuntime.LastEventWins | pkg/cubeproxy/cubeproxy.go:86-151 | after such a run each mentioned service is as the last event that mentions it says: compiled for its current endpoints, or gone; the others are as before |
| ProxyRuntime.EndpointsAdd | pkg/cubeproxy/proxyruntime/serviceruntime.go:42-72 | the endpoints of a list of candidates are theirs one by one, in order |
| ProxyRuntime.EndpointsOfOne | pkg/cubeproxy/proxyruntime/serviceruntime.go:42-51 | a candidate is an endpoint iff it runs and has an address |
| ProxyRuntime.NewServiceAcceptedIff | pkg/cubeproxy/proxyruntime/serviceruntime.go:13-72 | a service without a record is accepted iff it has an address, its ports have targets and its pods could be selected, with writing needed only if one of them is an endpoint |
| ProxyRuntime.ChainsAreRecorded | pkg/cubeproxy/proxyruntime/serviceruntime.go:63-67 | the cube-proxy chains of the table are exactly those recorded, each for one port of one service |
| ProxyRuntime.ServiceRulesAreRecorded | pkg/cubeproxy/proxyruntime/serviceiptables.go:22-32 | each rule of SERVICE that enters such a chain occurs once and is a recorded port's |
| ProxyRuntime.AddThenDeleteRestores | pkg/cubeproxy/proxyruntime/serviceruntime.go:13-183 | adding an unmapped service and deleting it restores table and record exactly |
| ProxyRuntime.BuildKeepsGood | pkg/cubeproxy/proxyruntime/serviceruntime.go:57-80 | building a service keeps the table in agreement with the record |
| ProxyRuntime.TakenDownUnderSamePorts | pkg/cubeproxy/proxyruntime/serviceruntime.go:147-164 | a service is taken down under another spec iff both have the same ports, protocols and address; target ports may differ |
| ProxyRuntime.RemovalEventTakesNothingDown | pkg/apiserver/watchobj/service.go:61-62 | an object with a UID alone takes a service down iff the service has no ports |
| ProxyRuntime.RemovalEventFlushesFirstPod | pkg/cubeproxy/proxyruntime/serviceruntime.go:166-173 | otherwise it leaves the table as it is, but for the first pod chain of the first port, which is flushed |
| Balance.NearestHundredths | pkg/cubeproxy/proxyruntime/serviceiptables.go:46-51 | the two decimals written for 1/m are a nearest value |
| Balance.TiedHundredths | pkg/cubeproxy/proxyruntime/serviceiptables.go:46-51 | only 1/8, 1/40 and 1/200 have two nearest values, and which of them is written |
| Balance.ExactIsFair | pkg/cubeproxy/proxyruntime/serviceiptables.go:44-65 | without rounding each of n pods gets a packet with probability exactly 1/n |
| Balance.SharesSumToOne | pkg/cubeproxy/proxyruntime/serviceiptables.go:44-65 | after rounding the shares still sum to exactly 1 |
| Balance.RoundedIsClose | pkg/cubeproxy/proxyruntime/serviceiptables.go:44-65 | after rounding pod i's share differs from 1/n by at most 0.005 (i + 1) |
| Balance.AllServedUpTo200 | pkg/cubeproxy/proxyruntime/serviceiptables.go:44-65 | every share is positive iff there are at most 200 pods |
| Packets.ServiceChainSpreads | pkg/cubeproxy/proxyruntime/serviceiptables.go:34-81 | evaluated rule by rule, a packet that enters a service chain is sent to pod i with rule i's share, and never falls through |
| Packets.PodRuleChance | pkg/cubeproxy/proxyruntime/serviceiptables.go:44-65 | rule k of a service chain enters pod chain k with the rounded chance, and only the last rule carries none |
| Packets.RuleTakes | pkg/cubeproxy/proxyruntime/serviceiptables.go:22-32 | a service's i-th SERVICE rule takes exactly the packets for its address and the protocol and port of its i-th port |
| Packets.ServicePacketsSpread | pkg/cubeproxy/proxyruntime/serviceiptables.go:11-83 | in every table the operations produce, a packet for a recorded service's address, protocol and port, if no rule in front takes it, reaches each of the service's pods within 0.005 (i + 1) of an equal part, at the target port |
| PodInformer.Informer.InformPod | pkg/controllermanager/informer/pod_informer.go:109-160 | the new cache and the one event sent, for each combination of cached, running and deleted |
| PodInformer.Informer.Observe | pkg/controllermanager/informer/pod_informer.go:76-95 | writes of pods not started yet and all events of removed pods change nothing |
| PodInformer.Informer.SelectPods | pkg/controllermanager/informer/pod_informer.go:177-185 | exactly the cached pods that match, each once, in some order |
| PodInformer.ObserveTracks | pkg/controllermanager/informer/pod_informer.go:76-160 | each pod's events stay a prefix of (Create Update* Killed)*, in step with the cache; none is about a removed pod |
| PodInformer.RemoveTracks | pkg/controllermanager/informer/pod_informer.go:187-190 | recording a removal keeps that invariant without an event |
| PodCaches.WatchAnnounces | pkg/controllermanager/informer/pod_informer.go:76-160 | in every reachable state: which event a watch event sends, by the pod's running before and after |
| PodCaches.CacheShowsLast | pkg/controllermanager/informer/pod_informer.go:76-190 | in every run: a pod is cached iff it was not removed and the last that was heard of it says that it runs, and then as that says |
| PodCaches.RemovedAre | pkg/controllermanager/informer/pod_informer.go:187-190 | in every run: exactly the pods other controllers removed and those the API server deleted for this one are recorded as removed |
| EventCounts.TallyFollows | pkg/controllermanager/controller/replicaset_controller/pod_handler.go:10-73 | a list count that agrees with a pod's life before its events agrees after them |
| EventCounts.TallyCatchesUp | pkg/controllermanager/controller/replicaset_controller/pod_handler.go:31-73 | a live pod that was not listed gets listed by its first update |
| Slices.RemoveDuplication | pkg/controllermanager/utils/utils.go:3-17 | in place, with the write index never past the read index: the prefix is the first occurrences, the rest is untouched |
| Slices.RemoveMultiIndex | pkg/controllermanager/utils/utils.go:19-29 | for any index list: exactly the elements at the indices before the first one out of order or out of range are left out; all of them, if the indices ascend |
| Slices.DedupIsSet | pkg/controllermanager/utils/utils.go:3-17 | the result has no repeats and the same elements |
| Slices.DedupKeepsOrder | pkg/controllermanager/utils/utils.go:3-17 | the result is in first-occurrence order |
| ReplicaSetController.Controller.PodUIDAppearedIndex | pkg/controllermanager/controller/replicaset_controller/pod_handler.go:80-87 | the first index of the UID, iff it is there |
| ReplicaSetController.Controller.HandlePodCreate | pkg/controllermanager/controller/replicaset_controller/pod_handler.go:10-29 | the whole new status |
| ReplicaSetController.Controller.HandlePodUpdate | pkg/controllermanager/controller/replicaset_controller/pod_handler.go:31-49 | the whole new status |
| ReplicaSetController.Controller.HandlePodKilled | pkg/controllermanager/controller/replicaset_controller/pod_handler.go:51-73 | the whole new status |
| ReplicaSetController.Controller.HandlePodEvent | pkg/controllermanager/controller/replicaset_controller/replicaset_controller.go:67-83 | handling the next queued event is a step of the pipeline |
| ReplicaSetController.Controller.CheckAndUpdate | pkg/controllermanager/controller/replicaset_controller/replicaset_controller.go:134-213 | nothing within the waiting time; a panic iff a negative target exceeds the room behind the running list; otherwise the new status, cache and removal record for the pods listed and the API answers, the new kill list being, in first-occurrence order and without repeats, the old one, the pods to run, the surplus and the bad pods less those the API server does not know; for targets of at least 0 the result of a run of the pipeline's steps |
| ReplicaSetController.Controller.PodsToKill | pkg/controllermanager/controller/replicaset_controller/replicaset_controller.go:178-184 | the deduplicated list of old kills, old starts, surplus and bad pods |
| ReplicaSetController.Controller.DeletePods | pkg/controllermanager/controller/replicaset_controller/replicaset_controller.go:185-196 | the indices answered with "no objects found", ascending, and the deleted pods gone from the cache |
| ReplicaSetController.Controller.HandleReplicaSetCreate | pkg/controllermanager/controller/replicaset_controller/replicaset_handler.go:17-44 | the initial status lists exactly the pods whose creation succeeded |
| ReplicaSetController.Controller.HandleReplicaSetUpdate | pkg/controllermanager/controller/replicaset_controller/replicaset_handler.go:46-82 | missing pods are created, or the front of the running list is killed and forgotten; a panic iff a negative target exceeds the room; for targets of at least 0 a run of the pipeline's steps |
| ReplicaSets.ReconcileRuns | pkg/controllermanager/controller/replicaset_controller/replicaset_controller.go:134-213 | a reconcile without interruption: listing, each creation, each deletion and the write, one after the other, come to the new status and the deleted pods forgotten |
| ReplicaSets.ScaleRuns | pkg/controllermanager/controller/replicaset_controller/replicaset_handler.go:46-82 | the same for a change of scale |
| ReplicaSets.NeverStuck | pkg/controllermanager/controller/replicaset_controller/replicaset_controller.go:56-213 | in every run watch events and foreign removals can come at any time, and work under way can go on whatever the API server answers, up to its write |
| RunningLists.StepKeepsAccurate | pkg/controllermanager/controller/replicaset_controller/replicaset_controller.go:56-213 | every step of watch, handlers, listing, single creations and deletions, write, scaling and foreign removal keeps the expected count of each pod right; a listing if the queue is clean |
| RunningLists.ListingIsAccurateIffClean | pkg/controllermanager/controller/replicaset_controller/replicaset_controller.go:140-154 | listing the pods is right iff the queued events are harmless; an empty queue always is |
| RunningLists.ReconcileAccurateIffClean | pkg/controllermanager/controller/replicaset_controller/replicaset_controller.go:134-213 | a whole reconcile that nothing interrupts leaves an accurate status iff they were |
| RunningLists.QueuedCreateIsListedTwice | pkg/controllermanager/controller/replicaset_controller/replicaset_controller.go:199-205 | a run from the start after which a pod is listed twice, because it was listed while its create event was queued |
| RunningLists.RunIsAccurate | pkg/controllermanager/controller/replicaset_controller/replicaset_controller.go:56-213 | over every interleaving with clean listings the counts are right |
| RunningLists.DrainedListIsExact | pkg/controllermanager/controller/replicaset_controller/pod_handler.go:10-73 | once the queue is handled the running list is, without repeats, the cached matching pods and those removed but not yet reconciled |
| RunningLists.HandledTakesOff | pkg/controllermanager/controller/replicaset_controller/pod_handler.go:10-73 | an event takes its pod off the pods to run or to kill, once, and only a create restarts the waiting time; events of pods that do not match change nothing |
| RunningLists.RunKeepsCount | pkg/controllermanager/controller/replicaset_controller/replicaset_controller.go:56-213 | in every run the number of running replicas is the length of the running list |
| RunningLists.NothingAfterRemoval | pkg/controllermanager/informer/pod_informer.go:83-85 | no event about a pod is emitted after its recorded removal, in any run from any state |
| Reconciles.SurvivorsIff | pkg/controllermanager/controller/replicaset_controller/replicaset_controller.go:163-197 | when all creations and deletions were answered: exactly the surplus was deleted, and survivors and created pods add up to the wanted number, each iff no other running pod was still to run or to be killed |
| Reconciles.ReconcileReachesReplicasIff | pkg/controllermanager/controller/replicaset_controller/replicaset_controller.go:134-213 | the same for every reconcile in every run whose calls are served, whatever is queued and whatever the watch does in between |
| Reconciles.WholeReconcileReachesReplicasIff | pkg/controllermanager/controller/replicaset_controller/replicaset_controller.go:134-213 | the same for a whole reconcile that nothing interrupts, from any state, counting the survivors in the cache |
| Reconciles.QueuedCreateIsKilled | pkg/controllermanager/controller/replicaset_controller/replicaset_controller.go:173-197 | a run from the start with one replica wanted in which a reconcile deletes the only running pod, because its create event was queued, and creates none |
| Reconciles.RunIsOrderly | pkg/controllermanager/controller/replicaset_controller/replicaset_controller.go:165-205 | in every run without refused deletions, a pod still to run that is cached has its create event waiting, and a pod to kill is removed or unknown to the API server |
| Reconciles.HandledIsUndisturbed | pkg/controllermanager/controller/replicaset_controller/pod_handler.go:10-29 | running pods whose create events are handled and which the API server knows are not still to run or to be killed |
| Reconciles.NextReconcileIsQuiet | pkg/controllermanager/controller/replicaset_controller/replicaset_controller.go:134-213 | once the created pods run and the killed ones are gone, the next reconcile creates nothing and has no surplus, and kills no running pod iff none is still to run or to be killed |
| Reconciles.NewKillList | pkg/controllermanager/controller/replicaset_controller/replicaset_controller.go:178-197 | the new kill list holds exactly the UIDs to kill, to run, in the surplus or bad that were not answered "no objects found", once each, in first-occurrence order |
| Reconciles.StatusWritten | pkg/controllermanager/controller/replicaset_controller/replicaset_controller.go:163-206 | the status a reconcile writes in any run, whatever comes in between: the pods it listed run, those it created are to run, and exactly those of its list not answered "no objects found" are to be killed |
| Reconciles.ScaleWritten | pkg/controllermanager/controller/replicaset_controller/replicaset_handler.go:46-82 | the status a change of scale writes in any run: created pods are to run as well, the front of the running list is to be killed as well, and nothing else changes but the time |
| Reconciles.WholeReconcileWrites | pkg/controllermanager/controller/replicaset_controller/replicaset_controller.go:134-213 | the status after a whole reconcile that nothing interrupts, in terms of its inputs |
| Heartbeat.StepKeepsOwner | pkg/apiserver/heartbeat/heartbeat.go:40-151 | every atomic step keeps: one owner of the current epoch, the flag up exactly while that is an un-lost connection, as many retries as losses, exactly one health checker once the connection is read and none before, and of each lost connection at most one goroutine left |
| Heartbeat.AlwaysOwned | pkg/apiserver/heartbeat/heartbeat.go:40-151 | the same in every interleaving |
| Heartbeat.LateCloseIsSilent | pkg/apiserver/heartbeat/heartbeat.go:43-51 | a close from an older epoch changes no flag, counter or other goroutine |
| Heartbeat.OneLossPerEpoch | pkg/apiserver/heartbeat/heartbeat.go:40-52 | of two closes of one epoch only the first counts |
| Heartbeat.FirstCloseKeepsOwner | pkg/apiserver/heartbeat/heartbeat.go:40-52 | the first close of the current epoch makes its new goroutine the owner |
| Heartbeat.LossIsNoticed | pkg/apiserver/heartbeat/heartbeat.go:67-128 | whichever end of the current connection fails, its close takes the flag down, counts one loss and starts the retry loop |
| Heartbeat.ReconnectsAfterLoss | pkg/apiserver/heartbeat/heartbeat.go:91-141 | from there, once the API server is alive, a new goroutine dials, raises the flag for the new epoch and gets a health checker of its own |
| Heartbeat.EveryoneCanMove | pkg/apiserver/heartbeat/heartbeat.go:40-141 | no goroutine ever waits for another one |
| Heartbeat.Client.CloseConn | pkg/apiserver/heartbeat/heartbeat.go:40-52 | the locked section is the close step of the protocol |
| Heartbeat.Client.UpdateHeartBeat | pkg/apiserver/heartbeat/heartbeat.go:91-128 | each of its atomic sections is the matching step of the protocol |
| Heartbeat.Client.RetryConnection | pkg/apiserver/heartbeat/heartbeat.go:130-141 | the retry loop ends by starting one dialer |
| Tsdb.TimeSeries.EvictFront | pkg/tsdb/tsdb.go:38-40 | the loop drops the longest prefix older than the window |
| Tsdb.TimeSeries.Add | pkg/tsdb/tsdb.go:42-60 | the backward walk inserts after the last element not above the timestamp |
| Tsdb.Store.InsertMs | pkg/tsdb/tsdb.go:23-62 | one insertion on the named series; every other series is unchanged |
| Tsdb.Store.QueryLastMinute | pkg/tsdb/tsdb.go:64-84 | the answer and the evicted series; every other series is unchanged |
| Tsdb.RunRepresents | pkg/tsdb/tsdb.go:23-84 | over every run on a non-decreasing clock a series is sorted and holds every timestamp still recent |
| Tsdb.QueryCountsHistory | pkg/tsdb/tsdb.go:64-84 | a query equals the number of all timestamps ever inserted under the name that are at most 1000 ms old |
| Tsdb.LeavesRecent | pkg/tsdb/tsdb.go:23-84 | every operation leaves its series without timestamps older than 1000 ms, but for the one it inserts, and leaves the other series alone |
| Addresses.NumberRoundTrip | pkg/cubenetwork/servicenetwork/utils/ip2int.go:8-19 | Ip2int of Int2ip is the number again, in the 4-byte and the 16-byte form |
| Addresses.AddressRoundTrip | pkg/cubenetwork/servicenetwork/utils/ip2int.go:8-19 | Int2ip of Ip2int is the address again, and both forms have one number |
| Addresses.FormsAgree | pkg/cubenetwork/servicenetwork/utils/ip2int.go:8-13 | two IPv4 addresses in any form have one number iff they are one address |
| Addresses.To4Iff | pkg/cubenetwork/servicenetwork/utils/ip2int.go:8-13 | an address has a 4-byte form iff it is those four bytes or their 16-byte form |
| Addresses.ContainsIsRange | pkg/cubenetwork/servicenetwork/allocate.go:12-25 | the masked comparison of a CIDR range (section 3.1 of RFC 4632) accepts exactly a block of 2^(32 - prefix) consecutive numbers |
| ClusterIP.ClusterIPAllocator.Init | pkg/cubenetwork/servicenetwork/clusterip.go:33-65 | it ends in log.Fatal iff a stored address is out of range, and otherwise marks the stored addresses |
| ClusterIP.MarkedAreStored | pkg/cubenetwork/servicenetwork/clusterip.go:49-62 | the marked numbers are exactly those of stored addresses |
| ClusterIP.StartIsGood | pkg/cubenetwork/servicenetwork/clusterip.go:33-65 | stored services with different addresses in range give a good start |
| ClusterIP.ClusterIPAllocator.AllocateClusterIP | pkg/cubenetwork/servicenetwork/allocate.go:10-39 | the outcome and new state of the loop as written, watched for any number of rounds |
| ClusterIP.ClusterIPAllocator.DeAllocateClusterIP | pkg/cubenetwork/servicenetwork/allocate.go:41-44 | the mark of the address is cleared; a nil address panics |
| ClusterIP.ReturnsIff | pkg/cubenetwork/servicenetwork/allocate.go:10-39 | a call returns iff the request is usable or the address at nextIP is free and in range |
| ClusterIP.SpinsIff | pkg/cubenetwork/servicenetwork/allocate.go:21-33 | it runs forever iff the address at nextIP is in range and taken, and the request is not usable |
| ClusterIP.RequestIsHonoured | pkg/cubenetwork/servicenetwork/allocate.go:11-38 | a requested address is given iff it lies in the range and is free, and exactly the address given is newly marked |
| ClusterIP.RequestingNextSpins | pkg/cubenetwork/servicenetwork/allocate.go:11-33 | requesting the address at nextIP makes the next automatic allocation run forever |
| ClusterIP.InARow | pkg/cubenetwork/servicenetwork/allocate.go:21-38 | k automatic allocations in a row all return iff the k addresses from nextIP on, with wrap-around, are different, free and in range, and hand out exactly those |
| ClusterIP.RunIsSafe | pkg/cubenetwork/servicenetwork/allocate.go:10-44 | in every run in which services give back their own address, live services hold different addresses, all in range, and exactly the held addresses are marked |
| ClusterIP.ReleaseIff | pkg/cubenetwork/servicenetwork/allocate.go:41-44 | clearing an address for a removed service is safe iff it has the number of that service's own |
| ClusterIP.ClusterIPAllocator.RepairedSearch | pkg/cubenetwork/servicenetwork/allocate.go:20-33 | not the code, but the loop repaired to re-read nextIP: it ends, with the lowest free address at or above it iff there is one; only a full range that is the whole address space is excluded |
| RoundRobin.SchedulerRR.constructor | pkg/scheduler/RR/RRScheduler.go:20-40 | exactly the ready nodes, counted right |
| RoundRobin.SchedulerRR.AddNode | pkg/scheduler/RR/RRScheduler.go:42-54 | a new node goes to the end, a known one changes nothing |
| RoundRobin.SchedulerRR.RemoveNode | pkg/scheduler/RR/RRScheduler.go:56-70 | the node leaves the list, the order of the others stays |
| RoundRobin.SchedulerRR.Schedule | pkg/scheduler/RR/RRScheduler.go:72-79 | the node picked for the old counter, no node, or the panic on a negative index; the counter wraps |
| RoundRobin.RunKeepsGood | pkg/scheduler/RR/RRScheduler.go:42-79 | in runs of any length, whenever there are fewer than 2^31 nodes: the count is the length of a repeat-free list, the next call panics iff the wrapped counter is negative and no multiple of it, and the first 2^31 calls find a node |
| RoundRobin.PanicIff | pkg/scheduler/RR/RRScheduler.go:77-78 | call number k panics iff the wrapped counter is negative and no multiple of the node count |
| RoundRobin.FairWindow | pkg/scheduler/RR/RRScheduler.go:72-79 | any m calls in a row with fixed membership give each of n nodes m/n turns rounded down or up, exactly m/n if n divides m |
| RoundRobin.MembershipIsLastWins | pkg/scheduler/watchnode.go:37-68 | membership after the events is decided, node by node, by the last event that says something about it |
| RoundRobin.SchedulerRR.TryWatchNode | pkg/scheduler/watchnode.go:19-74 | the same over the listed nodes, all of which are added first, ready or not |
| PodActions.ComputePodActions | pkg/cubelet/cuberuntime/cuberuntime_manager.go:130-200 | the plan, with the splice's default index and its panic |
| PodActions.FindContainerStatusByName | pkg/cubelet/container/runtime.go:93-100 | the first container of the name |
| PodActions.SplicesAreRightIff | pkg/cubelet/cuberuntime/cuberuntime_manager.go:180-190 | the splices take out exactly the kept identifiers iff none is kept twice |
| PodActions.KillsTheRestIff | pkg/cubelet/cuberuntime/cuberuntime_manager.go:165-196 | with different container identifiers the plan kills exactly the containers not kept iff no two spec containers share a running one |
| PodActions.PlanPartitions | pkg/cubelet/cuberuntime/cuberuntime_manager.go:165-196 | with different names too, each spec container is started, in spec order, or has one running container kept for it, and the killed are all the others |
| PodActions.KillsCount | pkg/cubelet/cuberuntime/cuberuntime_manager.go:165-196 | how often each container is listed for killing: once if it is not kept, and once more for every spec container that finds it stopped |
| PodActions.KeepsSandboxIff | pkg/cubelet/cuberuntime/cuberuntime_manager.go:201-222 | the sandbox is kept iff the first one there is ready and has an address |
| PodActions.ChangedSandboxRestartsAll | pkg/cubelet/cuberuntime/cuberuntime_manager.go:141-163 | under a changed sandbox every old container is killed and every spec container started, in order and once each; no sandbox is made for an empty spec |
| PodActions.PlanConverges | pkg/cubelet/cuberuntime/cuberuntime_manager.go:165-196 | once a plan is carried out the next plan starts and kills nothing |
| PodActions.PanicsIff | pkg/cubelet/cuberuntime/cuberuntime_manager.go:180-190 | the plan panics iff, under an unchanged sandbox, spec containers name running containers more often than there are containers |
| PodActions.SharedNamePanics | pkg/cubelet/cuberuntime/cuberuntime_manager.go:180-190 | an instance: two spec containers with the name of the only container |
| Compare.MapChangeIff | pkg/object/compare.go:16-24 | comparing sizes and the old entries detects exactly inequality |
| Compare.MatchIsRestriction | pkg/object/compare.go:182-191 | a selector matches exactly the labels whose restriction to its keys is the selector |
| Compare.ContainerChangeIff | pkg/object/compare.go:121-180 | no change iff the containers are equal in every field |
| Compare.PodSpecChangeIff | pkg/object/compare.go:29-52 | no change iff containers and volumes are equal |
| Compare.ServiceChangeIff | pkg/object/compare.go:221-254 | with different old ports, no change iff selector and address are equal and the ports are the same in some order |
| Compare.ServiceChangeExactIff | pkg/object/compare.go:221-254 | for an old spec: the comparison with every new spec sees exactly those changes iff the old ports are all different |
| Compare.RepeatedPortHidesChange | pkg/object/compare.go:234-250 | with a repeated old port a changed one goes unnoticed, and the comparison is not symmetric |
| CubeletInformer.PodInformer.InformPod | pkg/cubelet/informer/podinformer.go:134-171 | the new cache and the event sent, for each case |
| CubeletInformer.PodInformer.Watch | pkg/cubelet/informer/podinformer.go:74-104 | over one session, with the node filter, the events replay to the cache's compared fields |
| CubeletInformer.PodInformer.ForceRemove | pkg/cubelet/informer/podinformer.go:128-132 | the pod leaves the cache without an event |
| CubeletInformer.SuppressedIff | pkg/cubelet/informer/podinformer.go:157-166 | an update is suppressed iff every compared field is equal |
| CubeletInformer.ConsumerSeesCache | pkg/cubelet/informer/podinformer.go:134-171 | a consumer of the events alone always holds the cached pods, equal in every compared field, and no event is redundant |
| CubeletInformer.CacheIsLatest | pkg/cubelet/informer/podinformer.go:74-171 | over every session: a pod is cached iff the last thing heard of it, with the node filter, is a write, and then as that write has it |
| CubeletInformer.ForceRemoveAgreesIff | pkg/cubelet/informer/podinformer.go:128-132 | a forced removal keeps that agreement iff it removes nothing |
| AutoScaler.Controller.CheckAndUpdateAutoScalerStatus | pkg/controllermanager/controller/autoscaler_controller/autoscaler_controller.go:138-199 | the loop computes the averages, and status and ReplicaSet become the next state of the model, whether the write to the ReplicaSet succeeds or not |
| AutoScaler.Controller.HandleAutoScalerCreate | pkg/controllermanager/controller/autoscaler_controller/autoscaler_handler.go:15-39 | status and ReplicaSet start at the minimum; what each failed API call leaves; a template without labels panics |
| AutoScaler.BuildLowerReplicaSet | pkg/controllermanager/controller/autoscaler_controller/autoscaler_handler.go:56-86 | the label maps are shared and written in place, the selector matches the template, the other template labels stay |
| AutoScaler.AverageWithin | pkg/controllermanager/controller/autoscaler_controller/autoscaler_controller.go:146-168 | the averages lie between the smallest and largest usage of a running pod |
| AutoScaler.AverageIs | pkg/controllermanager/controller/autoscaler_controller/autoscaler_controller.go:146-168 | the averages are the totals over the running pods divided by their number, memory toward zero, and zero without any |
| AutoScaler.TotalsAdd | pkg/controllermanager/controller/autoscaler_controller/autoscaler_controller.go:146-168 | counts and totals add up over the pods |
| AutoScaler.CheckNotes | pkg/controllermanager/controller/autoscaler_controller/autoscaler_controller.go:138-199 | what a check records whatever it decides: the number of running pods and their averages; no other ReplicaSet changes |
| AutoScaler.CreationNotes | pkg/controllermanager/controller/autoscaler_controller/autoscaler_handler.go:15-39 | what a creation records, whichever call fails; it and a removal leave the other ReplicaSets alone |
| AutoScaler.ReplicaSetExistsIff | pkg/controllermanager/controller/autoscaler_controller/autoscaler_controller.go:70-199 | in every run the autoscaler's ReplicaSet is the one made last, and exists iff it was not removed since |
| AutoScaler.RecreatedAfterRemoval | pkg/controllermanager/controller/autoscaler_controller/replicaset_handler.go:20-33 | a removed ReplicaSet is made anew at the minimum, and the desired number starts there again |
| AutoScaler.ScaleMeans | pkg/controllermanager/controller/autoscaler_controller/autoscaler_controller.go:206-252 | a decision stays in bounds, moves by one, keeps the interval, and comes only when as many pods run as desired |
| AutoScaler.DecisionIff | pkg/controllermanager/controller/autoscaler_controller/autoscaler_controller.go:206-252 | the exact decision: a step up iff interval and pod number allow it, there is room, some average is above its upper limit and none below its lower one; a step down in the mirror image; otherwise none |
| AutoScaler.OverloadScalesUp | pkg/controllermanager/controller/autoscaler_controller/autoscaler_controller.go:206-252 | when a limit is set and every running pod is above the upper limits that are, a replica is added iff interval and pod number allow it and there is room |
| AutoScaler.UnderloadScalesDown | pkg/controllermanager/controller/autoscaler_controller/autoscaler_controller.go:206-252 | the mirror image: when every running pod is below the lower limits that are set, a replica goes iff interval and pod number allow it and it is above the minimum |
| AutoScaler.RunIsPaced | pkg/controllermanager/controller/autoscaler_controller/autoscaler_controller.go:138-252 | over every run, failed calls included, the desired number is in bounds, and each change is a reset to the minimum or a step of one at least max(20 s, MinScaleIntervalSec) after the change before |
| AutoScaler.NextInStepIff | pkg/controllermanager/controller/autoscaler_controller/autoscaler_controller.go:177-190 | a step keeps the lower ReplicaSet at the desired number iff it is no scaling whose write fails |
| AutoScaler.RunIsInStep | pkg/controllermanager/controller/autoscaler_controller/autoscaler_controller.go:138-252 | over every run in which those writes succeed the desired number is the lower ReplicaSet's |
| AutoScaler.OutOfStepSticks | pkg/controllermanager/controller/autoscaler_controller/autoscaler_controller.go:215-218 | once they differ no check scales again while as many pods run as the ReplicaSet wants |
| Gateway.StepKeepsGood | pkg/gateway/httphandler.go:82-119 | every step of handlers, timeouts and listener keeps the invariant on map, channels and replies |
| Gateway.RunIsGood | pkg/gateway/httphandler.go:82-119 | so does every interleaving |
| Gateway.ListenerNeverBlocks | pkg/gateway/consumer.go:26-36 | in every interleaving the listener's send finds room |
| Gateway.FirstReplyFinds | pkg/gateway/consumer.go:26-36 | the first reply to a request goes to that request's own channel, later ones are dropped |
| Gateway.OneMessageEach | pkg/gateway/consumer.go:31-36 | each channel gets at most one message, and a handler answers only with the first reply to its own request |
| Gateway.HandlerStands | pkg/gateway/httphandler.go:82-119 | in every interleaving a handler's state follows from what it has done: it is answered iff it received, has given up iff its write failed or its time was out, and never both |
| Gateway.HandlerCanMove | pkg/gateway/httphandler.go:82-119 | in every interleaving a handler that has not ended can go on or give up |
| Gateway.WaitingIsServed | pkg/gateway/httphandler.go:102-118 | a waiting handler whose request has a reply can receive it, at the latest after the pending send |
| Gateway.MapIsUnanswered | pkg/gateway/httphandler.go:82-97 | the map holds exactly the requests without a reply, those given up on included |
| Gateway.RuntimeGateway.Register | pkg/gateway/httphandler.go:82-85 | a new empty channel under the identifier, apart from all others |
| Gateway.RuntimeGateway.Deliver | pkg/gateway/consumer.go:26-36 | the entry goes, and only the channel registered under the identifier gets the reply |

## Left out

- HTTP, etcd, Kafka, Docker, weave, nginx and SSH plumbing, command-line tools and templates: I/O and libraries outside the model; their answers are parameters.
- ProxyRuntime.Runtime.AddService: numeric target ports only. Named target ports and the defaulting of CheckService write to loop copies; a service with target port 0 is answered as a failure.
- ProxyRuntime.Runtime.Sync: after a failed event the code stops; what later events would do to a table in disagreement is not stated. iptables calls fail only for the reasons the table gives. AddAllExistService and cleaning at start-up are not modelled.
- NatTable.IPTables.Insert: rules are compared as values. Rules not made by cube-proxy are kept, and count as matching no packet.
- Packets.ServicePacketsSpread: SERVICE is entered directly; the rules that lead there and connection tracking are not modelled. Fresh chain names stand for the first 15 characters of a UUID.
- Actions.ActionServer.DelAction: the removal of the script file is not modelled. GetWorkflow and SelectActions only read.
- PodInformer.Informer.Observe: one watch session from an empty cache; the list phase after a reconnect fills the cache without events. The channel's capacity of 10 is not modelled.
- RunningLists.StepKeepsAccurate: one ReplicaSet that reads back its own writes; what other controllers remove is a step of its own. A creation is a step when the API server makes the pod, a deletion when the controller has its answer and records it. Pod labels are fixed, and pods carry the resource usage the informer logs.
- Reconciles.ReconcileReachesReplicasIff: targets of at least 0, and running pods that are to be deleted are known to the API server.
- ReplicaSetController.Controller.CheckAndUpdate: the capacity behind a slice is a parameter, and holds empty strings.
- ReplicaSetController.Controller.HandleReplicaSetUpdate: with a negative target too; the room behind a list that was spliced may hold former elements in the code.
- ReplicaSetController.Controller.PodsToKill: appending to a status slice is modelled on values, so sharing of its backing array is not captured.
- Heartbeat.StepKeepsOwner: timeouts, write errors and read errors are one step that may happen at any time; the timestamp they depend on is not modelled.
- Heartbeat.Client.CloseConn: closing the socket and stopping the watches are not modelled.
- Heartbeat.Client.UpdateHeartBeat: the dialing loop is one step, and reading until an error is another.
- Heartbeat.Client.RetryConnection: the loop that waits for the API server is one step.
- Tsdb.Store.InsertMs: timestamps do not overflow, and a call reads the clock and takes the lock in one step.
- ClusterIP.ClusterIPAllocator.AllocateClusterIP: the number of rounds is a parameter because the loop may not end; parsing and printing of addresses are outside the model. Calls are one at a time.
- ClusterIP.RunIsSafe: services are created and released only. Put stores whatever address it is given, and no handler of the API server releases an address.
- RoundRobin.SchedulerRR.AddNode: fewer than 2^31 - 1 nodes. Calls from several goroutines at once are not modelled.
- PodActions.PlanConverges: the plan is carried out without errors; a stopped container listed twice is stopped twice by the code, and the second answer is not modelled.
- CubeletInformer.PodInformer.Watch: a pod moved to another node stays cached, as in the code; the list phase is left out.
- AutoScaler.RunIsInStep: nobody else changes the ReplicaSet. CPU averages are real numbers, and durations do not overflow. The status a check fills in is shared with the informer's cache, so whether the autoscaler itself is written makes no difference to the model.
- Gateway.StepKeepsGood: replies parse and are for requests that were handed to the queue; an unreadable reply ends the listener.
- The action brain controller, actors, GPU jobs, ingress and DNS handlers, server-side heartbeat: near twins of what is modelled, or plumbing.
