# A verified model of the GenAI microservices connector and the memory-bandwidth collectors

The project models, in Dafny, four parts of GenAIInfra that decide something, and proves what they
guarantee over whole runs.

* **The GMC router** runs one request through a graph of named nodes. `Semantics.dfy` gives each run its
  calls and its answer; `RouterCode.dfy` has the handlers as methods with the source's loops, each proved
  to compute that run. Services are an arbitrary oracle over a call's causal past, so every theorem is
  about every behaviour of the services, stateful and racing ones included (`Oracle.dfy`). A body is its bytes together
  with what they parse to, so decoding what was encoded needs no assumption. Run-time panics are an
  outcome of their own (`Crash`), and so is the nil body with status 0 of a node in which nothing ran.
  What a run means step by step, without the interpreter, is in `ChainRuns.dfy`, `Conditions.dfy` and
  `EnsembleNodes.dfy`.
  `Depth.dfy` defines runs on graphs with reference cycles as well, by depth of nesting, and
  `Cycles.dfy` says when they end.
* **The ensemble** is also a state machine over goroutines, blocking sends and the collector
  (`EnsembleMachine.dfy`); its reachable answers are exactly those the semantics allows.
* **The admission webhook** (`Webhook.dfy`) and what its verdict means for the router (`Admission.dfy`).
* **The controller**: one reconcile pass as methods over the cluster and the custom resource
  (`Manifests.dfy`, `ConnectorStatus.dfy`, `Controller.dfy`), with the API server's answers as an input;
  histories of passes, edits, status updates and losses (`ControllerRuns.dfy`); names and counts
  (`Naming.dfy`), and the URLs the router is handed (`Urls.dfy`, `Handoff.dfy`).
* **The collectors**: counters into rates (`Bandwidth.dfy`) and the unlocked container cache
  (`Containers.dfy`).

`dafny verify dfyconfig.toml` checks everything.

## Main results

* The run of every Sequence, Switch and Ensemble node is characterised by its steps' own runs: which are
  executed, with which bodies, when a node stops early, and what it answers.
* Inlining a nested Sequence, and deleting downstream steps, preserve every run from every node of the
  graph, for all services and schedules. For the deletion the side condition (no `$response` step comes to
  the front) is exact in graphs whose nodes all have a step to begin with, unconditional in a Sequence.
  Empty bytes are taken as invalid JSON, as the query library has it.
* On an accepted graph whose nodes all have a step to begin with, every request ends, for all services and
  schedules, just if no reference cycle can be reached from the root: fewer references can be followed from
  there than there are nodes.
* Every ensemble interleaving ends, gives an answer of the semantics, and without decoding errors always
  the same one; every answer of the semantics is reached; status 200 is never false.
* Every body sent with an object of parameters in the request is the request, empty, or carries the
  parameters, at any depth; a run makes at most as many calls as the graph has leaves; each call goes to
  the URL of the step that is executed, and on the handed-over graph where the controller meant that step.
* In every history in which a failed pass is made good before the next edit, each successful pass leaves
  existing = recorded = wanted resources. The two ways to leave an orphan are shown by running the passes,
  and that it stays. In every history at all, the status string parses and counts right.
* Rates telescope over runs with failures anywhere, exactly or modulo 2^64.
* A late write to the container cache is cleared in every interleaving in which a container is added only
  once its earlier housekeepers have ended; otherwise the entry can leak for good, and that condition on
  adding is exact.
* Permits are conserved, and goroutines that go on with what they have begun never come to a halt before
  all permits are back: every call that waits is served. The step that is always open is one the code takes.

## Where code and documentation differ

The model follows the code.

* The Switch type is documented to route to one of the steps; the code runs every matching step
  (`SwitchExecutesMatching`), and calls at most one service just if at most one matches
  (`SwitchCallsExactly`).
* The webhook admits the step name "Router"; the controller's manifest key is "router", so a spec that
  deploys such a step is never reconciled. Nor is one whose configuration names a downstream service that
  is not there. There are no other such specs (`AdmittedIsServableExactly`).
* The webhook admits reference cycles. A cycle through steps the router does not execute is harmless; on
  one through the first steps of nodes the router has no answer at any depth (`AcceptedGraphNeverAnswers`).
* A housekeeper's two deletes are not one step: a container added again while an old housekeeper of it
  lives can leave its cache entry behind (`EntryLeaks`, `AddIsSafeExactly`).
* A failed delete is ignored on purpose; the resource is then forgotten (`FailedDeleteOrphans`).
* A spec edited on top of a failed pass can leave an orphan (`EditAfterFailureOrphans`).
* A node named "" with steps takes the access URL away from the router (`Reconcile`, via `AccessUrl`).
* A socket that appears after the first sample stops the collector from updating for as long as it is
  there (`NewSocketJamsCollector`).

## Model

| member | source | states |
|---|---|---|
| RouterCode.MergeRequests | microservices-connector/cmd/router/main.go:237-261 | writing the parameters key by key in any order gives the reply overridden by them; an undecodable reply gives an empty request, parameters that are no object and a null reply panic |
| RouterCode.HandleSequencePipeline | microservices-connector/cmd/router/main.go:435-519 | the loop computes the chain semantics of a Sequence node: skipping, chaining, conditions, Hard stops |
| RouterCode.HandleSwitchPipeline | microservices-connector/cmd/router/main.go:263-358 | the loop computes the chain semantics of a Switch node |
| RouterCode.HandleEnsemblePipeline | microservices-connector/cmd/router/main.go:360-433 | running the workers and collecting computes the ensemble semantics under the scheduler's choice |
| RouterCode.Collect | microservices-connector/cmd/router/main.go:401-432 | the collector's loop gives the answer the schedule allows |
| ChainRuns.ChainHistory | microservices-connector/cmd/router/main.go:294-519 | the whole run of a Sequence or Switch node, for all services: each step that takes part is executed with the input or with the last reply under the parameters, if that could be read and a Sequence condition holds of it; an error ends the chain, and in a Sequence a Hard step without success, nothing else; its answer in each case |
| ChainRuns.SequenceCalls | microservices-connector/cmd/router/main.go:451-519 | a Sequence of unconditional leaf steps fed with its input calls them in order up to the first that is unreachable, or Hard and not 2xx, and answers with that reply and status, or the last |
| ChainRuns.SoftStepsNeverStop | microservices-connector/cmd/router/main.go:501-517 | without Hard steps it calls them all, whatever their status |
| ChainRuns.MergeMeans | microservices-connector/cmd/router/main.go:237-261 | which keys a merged request has and with which values, when it is the reply itself, empty, null, or a panic |
| ChainRuns.ChainingKeepsReply | microservices-connector/cmd/router/main.go:470-487 | a `$response` step that is not first is sent the fields of the last reply, overridden by the parameters |
| ChainRuns.NodeErrors | microservices-connector/cmd/router/main.go:441-449 | requests that do not parse, undeclared types and unknown nodes end in status 500 without a call |
| ChainRuns.LeafRun | microservices-connector/cmd/router/main.go:170-212 | a leaf step makes one call, with its request, and hands on body and status |
| RunInvariants.RequestOk | microservices-connector/cmd/router/main.go:222-261 | every request: each call is made by executing a leaf step and goes to that step's URL, no more calls than leaves, bodies that are the request, empty or carry every parameter, nil bodies only with status 0 or 500, faults with status 500, no lost route in a well-typed graph |
| RunInvariants.RouteOk | microservices-connector/cmd/router/main.go:435-543 | the same of every node with any input, by induction over the interpreter |
| Oracle.AskedDistinct | microservices-connector/cmd/router/main.go:193-220 | no two calls of a run have the same past |
| Oracle.AnyAnswers | microservices-connector/cmd/router/main.go:193-220 | so any answers to the calls of a run are those of some service that is a function of the past |
| Oracle.RunDependsOnAnswers | microservices-connector/cmd/router/main.go:222-543 | and services that answer a run's calls alike give the same run |
| Admission.AcceptedRequestEnds | microservices-connector/api/v1alpha3/validating_webhook.go:98-184 | on an accepted acyclic graph every run ends, from any node with any input and past, within the number of leaves and never in "invalid route type" |
| Admission.AcceptedEndsExactly | microservices-connector/cmd/router/main.go:545-565 | on an accepted graph whose chains all have a step to begin with, every request, which enters at the root, has an answer at some depth just if fewer references can be followed from there than there are nodes |
| Admission.AcceptedGraphNeverAnswers | microservices-connector/api/v1alpha3/validating_webhook.go:146-176 | an accepted root that routes to itself has no answer at any depth, for just the requests that decode |
| Cycles.RequestsEndExactly | microservices-connector/cmd/router/main.go:222-565 | the same of requests that enter at any one node of any well-typed graph |
| Cycles.NodeAnswers | microservices-connector/cmd/router/main.go:222-543 | from a node whose references end, every run has an answer, on any graph and in every world |
| Cycles.BoundedExactly | microservices-connector/cmd/router/main.go:222-235 | references from a node end just if they end after as many as there are other nodes |
| Cycles.EndsExactly | microservices-connector/cmd/router/main.go:222-543 | runs that enter at any node, with any input and past, all have an answer just if the followed references of the graph have no cycle |
| Depth.WithinAgrees | microservices-connector/cmd/router/main.go:222-543 | without cycles, the run at a depth of the node's height is the run of the semantics |
| Depth.WithinStays | microservices-connector/cmd/router/main.go:222-543 | with cycles too, a run that exists at one depth is the run at the next |
| Depth.TrapNeverAnswers | microservices-connector/cmd/router/main.go:435-461 | nodes whose unconditional first steps lead into each other have no run at any depth |
| Splice.SplicePreservesRuns | microservices-connector/cmd/router/main.go:435-519 | inlining a nested Sequence of Hard steps keeps calls, body, status and error of every run from every node |
| Splice.SuccessHasBody | microservices-connector/cmd/router/main.go:357-519 | a step that succeeded left a body |
| Downstream.PrunePreservesRuns | microservices-connector/cmd/router/main.go:312-350 | deleting all downstream steps of all Sequence and Switch nodes keeps every run, if no `$response` step comes to the front and empty bytes are invalid JSON |
| Downstream.PruneExact | microservices-connector/cmd/router/main.go:452-493 | it keeps all runs just if no `$response` step comes to the front of its node (an unconditional one, in a Sequence), where every chain has a step to begin with, unconditional in a Sequence, and no ensemble is empty |
| Downstream.PruneExactWhereDelivered | microservices-connector/cmd/router/main.go:452-493 | the same in any graph in which, if there are such steps, one of them hands its request to a call |
| Downstream.LateResponseMatters | microservices-connector/cmd/router/main.go:485-487 | a step that comes to the front and hands its request to a call: the first call is sent nothing before the deletion and the node's input after it |
| SwitchRoutes.SwitchExecutesMatching | microservices-connector/cmd/router/main.go:294-358 | a Switch node executes exactly the steps matching the initial request, in order, until one fails |
| SwitchRoutes.ExclusiveSwitchRunsOne | microservices-connector/cmd/router/main.go:324-356 | with exclusive conditions it is the one matching step, or nil and status 0 |
| SwitchRoutes.SwitchCallsExactly | microservices-connector/cmd/router/main.go:294-358 | when the matching steps are leaf steps: the calls are at most k for all behaviours of the services just if at most k steps match |
| Conditions.KeyedMatches | microservices-connector/cmd/router/main.go:136-155 | a condition key==value that the query does not find matches just if the string under the trimmed key is the trimmed value |
| Conditions.OthersMatchByQuery | microservices-connector/cmd/router/main.go:122-146 | a condition with a dot, a hash or without == matches by the query alone, in a valid request |
| Conditions.KeyedSwitch | microservices-connector/cmd/router/main.go:294-358 | conditions on one key with different values make the node a switch: the step whose value the request holds is the run, or nil with status 0 |
| EnsembleMachine.AnswersAreChoices | microservices-connector/cmd/router/main.go:366-432 | in every interleaving the answer, or the panic, is one the semantics allows |
| EnsembleMachine.ChoicesAreAnswers | microservices-connector/cmd/router/main.go:366-432 | every answer the semantics allows is reached by some interleaving |
| EnsembleMachine.ScheduleIndependent | microservices-connector/cmd/router/main.go:378-432 | with decodable replies every interleaving gives the left-to-right answer |
| EnsembleMachine.LeftToRightAnswer | microservices-connector/cmd/router/main.go:404-432 | that answer is the lowest failed Hard step's, or 200 with all replies |
| EnsembleMachine.CombinedLookup | microservices-connector/cmd/router/main.go:402-424 | the merged map has the keys of the steps, and the highest index wins a clash |
| EnsembleMachine.NoFalseSuccess | microservices-connector/cmd/router/main.go:411-432 | status 200 implies every message was received and every Hard one was 2xx; that messages are the steps' replies is in `EnsembleNodes.InterleavingsExplained` |
| EnsembleMachine.CollectorAlwaysReturns | microservices-connector/cmd/router/main.go:378-428 | interleavings are finite, the collector is never left waiting, and the goroutines blocked for good are those not received from |
| EnsembleNodes.EnsembleExplained | microservices-connector/cmd/router/main.go:360-433 | the node's run in terms of its steps' own runs: 200 means every step's reply was an object or null and every Hard status 2xx, with each label's last reply; another status is the first failed Hard step's, with its reply; an error is a step's undecodable reply; a panic a step's missing one |
| EnsembleNodes.EnsembleDecided | microservices-connector/cmd/router/main.go:401-432 | with usable replies from all steps: 200 just if no Hard step failed, else the lowest failed one |
| EnsembleNodes.InterleavingsExplained | microservices-connector/cmd/router/main.go:366-432 | the same of what any interleaving answers or dies of |
| Permits.PermitsConserved | microservices-connector/cmd/router/main.go:60-177 | held plus free permits is 1024 and only a call on top of its goroutine's stack holds or wants one |
| Permits.NoPermitDeadlock | microservices-connector/cmd/router/main.go:176-235 | with any number of requests and nested ensembles some goroutine with work left can move on, by a step the code can take |
| Permits.EveryWaiterIsServed | microservices-connector/cmd/router/main.go:176-235 | from every reachable state, in every schedule that begins nothing new: it can be continued, by a step the code can take, just until all stacks are empty, which takes a fixed number of actions, and then all permits are free |
| Webhook.ValidateNames | microservices-connector/api/v1alpha3/validating_webhook.go:146-176 | in any map order: no error just for valid names, exactly the offending steps reported, duplicate errors = named steps minus distinct names |
| Webhook.GetKeys | microservices-connector/api/v1alpha3/validating_webhook.go:137-143 | every key once |
| Webhook.CheckFields | microservices-connector/api/v1alpha3/validating_webhook.go:98-113 | accepts just the graphs with valid names and a root |
| Webhook.NamesValidMeans | microservices-connector/api/v1alpha3/validating_webhook.go:146-176 | valid names, step by step: every step name in the list, every reference empty or a node, no service name twice |
| Webhook.AsManyNames | microservices-connector/api/v1alpha3/validating_webhook.go:165-172 | counting names tells whether any is shared |
| Manifests.KeyRoundTrip | microservices-connector/internal/controller/gmconnector_controller.go:461-491 | splitting a recorded key gives kind, apiVersion, name and namespace back |
| Manifests.KeyInjective | microservices-connector/internal/controller/gmconnector_controller.go:545-547 | so keys and identities correspond one to one |
| Manifests.RenderedMeans | microservices-connector/internal/controller/gmconnector_controller.go:139-200 | the namespace and name of an object of a step |
| Urls.ServiceUrlReadsBack | microservices-connector/internal/controller/gmconnector_controller.go:304-327 | what a Service's URL reads back to: host labels name, namespace, svc, cluster, local and the first port; node and ingress addresses |
| Urls.StepUrl | microservices-connector/cmd/router/main.go:214-220 | a step is called at its URL, or else at its name in the graph's namespace |
| ConnectorStatus.CollectResourceStatus | microservices-connector/internal/controller/gmconnector_controller.go:482-528 | counts Deployments and ready ones in any order and keeps the external count, negative ones included; errors and panics on malformed keys and status strings |
| ConnectorStatus.FormatParses | microservices-connector/internal/controller/gmconnector_controller.go:522-527 | the status string splits into its counts and each reads back |
| ConnectorStatus.CollectionMeans | microservices-connector/internal/controller/gmconnector_controller.go:482-528 | the counts in the cluster's terms: recorded Deployments with as many replicas available as desired, and all of them; reports under the keys of those found |
| ConnectorStatus.CollectionOutcome | microservices-connector/internal/controller/gmconnector_controller.go:482-527 | when a collection fails, and how: nothing recorded, a key or status with too few fields, a count that is no number |
| ConnectorStatus.CollectionKeepsStatus | microservices-connector/internal/controller/gmconnector_controller.go:482-528 | collecting on a sound status never fails and keeps keys and external count |
| ConnectorStatus.UpdatesKeepStatus | microservices-connector/internal/controller/gmconnector_controller.go:443-459 | so does any number of deployment-triggered updates |
| Controller.ReconcileResource | microservices-connector/internal/controller/gmconnector_controller.go:131-283 | applies the objects of a step's manifest in order, and stops just at the first one that is refused or lacks an endpoint, with those before it applied; the downstream services in a Deployment's configuration must be found, and when they are and every apply is granted it succeeds |
| Controller.ReconcileRouterService | microservices-connector/internal/controller/gmconnector_controller.go:584-659 | applies and records the router's objects and sets the access URL, unless a node named "" has steps |
| Controller.DeleteStale | microservices-connector/internal/controller/gmconnector_controller.go:424-480 | deletes exactly what was recorded, is not wanted and the API server lets go, and says whether that was all |
| Controller.Reconcile | microservices-connector/internal/controller/gmconnector_controller.go:371-441 | a pass creates nothing unwanted, deletes nothing wanted, and deletes nothing before all that is wanted exists; success leaves everything wanted existing and recorded, the stale gone, a sound status, and the graph with its URLs; when all applies go through, the result and the cluster are determined |
| Controller.HandleStatusUpdate | microservices-connector/internal/controller/gmconnector_controller.go:443-459 | a deployment update keeps keys, external count and a sound status |
| ControllerRuns.Pass | microservices-connector/internal/controller/gmconnector_controller.go:371-441 | every pass of the code is a move of the histories below |
| ControllerRuns.UpdateMove | microservices-connector/internal/controller/gmconnector_controller.go:443-459 | and so is every status update |
| ControllerRuns.StatusAlwaysParses | microservices-connector/internal/controller/gmconnector_controller.go:482-528 | in every state of every history of edits, failed, leaking and successful passes, losses and updates: the status string splits into ready at most total, the external count of the last success, and the number of Deployment keys, and collecting on it succeeds |
| ControllerRuns.NoOrphansNothingMissing | microservices-connector/internal/controller/gmconnector_controller.go:371-441 | after each success of a clean history, existing = recorded = wanted |
| ControllerRuns.SuccessIsExact | microservices-connector/internal/controller/gmconnector_controller.go:424-432 | a success leaves the wanted resources just if everything there was recorded or wanted |
| ControllerRuns.OrphanStays | microservices-connector/internal/controller/gmconnector_controller.go:424-432 | an unrecorded, unwanted resource is never removed |
| ControllerRuns.EditAfterFailureOrphans | microservices-connector/internal/controller/gmconnector_controller.go:396-406 | two passes of the code with an edit between them, the first failing to write its status: whatever only the first spec wanted is left, unrecorded |
| ControllerRuns.FailedDeleteOrphans | microservices-connector/internal/controller/gmconnector_controller.go:471-479 | two successful passes of the code with an edit between them: what the second fails to delete is left, unrecorded |
| Naming.WorkloadsNeverCollide | microservices-connector/internal/controller/gmconnector_controller.go:174-200 | Services and Deployments of different steps and of the router never share a key |
| Naming.TotalCountsSteps | microservices-connector/internal/controller/gmconnector_controller.go:482-527 | the total is the number of deployed steps plus one |
| Naming.ExternalCountsSteps | microservices-connector/internal/controller/gmconnector_controller.go:396-420 | the external count is the number of leaf steps with an external service |
| Naming.WantedFrom | microservices-connector/internal/controller/gmconnector_controller.go:385-432 | a resource is wanted just if it is the router's or of a deployed step |
| Naming.AllowedNames | microservices-connector/internal/controller/gmconnector_controller.go:77-129 | the webhook's list of names is the controller's with "Router" for "router" |
| Naming.AdmittedIsServableExactly | microservices-connector/internal/controller/gmconnector_controller.go:77-283 | a spec with valid names has all a pass looks up just if no deployed step is named "Router" and every downstream service that a Deployment's configuration names is found |
| Handoff.CallsGoWhereTheControllerSays | microservices-connector/internal/controller/gmconnector_controller.go:408-411 | every call of every run on the handed-over graph is made by a leaf step of the spec and goes to that step's external service or the URL of its last Service plus endpoint |
| Handoff.UrlIsLastService | microservices-connector/internal/controller/gmconnector_controller.go:549-560 | recording in order leaves the last Service's URL |
| Handoff.CallReachesService | microservices-connector/internal/controller/gmconnector_controller.go:304-312 | a call made by a deployed step reads back to the step's service name and namespace, its manifest's last Service's port, and the endpoint |
| Handoff.HandedIsSpec | microservices-connector/internal/controller/gmconnector_controller.go:588-600 | what is handed over is the spec, URLs of leaf steps apart |
| Handoff.AccessUrlReadsBack | microservices-connector/internal/controller/gmconnector_controller.go:600-659 | the access URL reads back to the router's service name, namespace and port 8080 |
| Bandwidth.ProcessStats | kubernetes-addons/memory-bandwidth-exporter/collector/common.go:269-326 | per-socket rates and occupancies, sums equal to the per-socket totals in any map order, errors exactly for missing sockets and bad time stamps |
| Bandwidth.SocketMeans | kubernetes-addons/memory-bandwidth-exporter/collector/common.go:269-326 | per socket and counter: rate times elapsed seconds times 10^6 is the bytes counted, around the end of the counter too; cache bytes are 2^20 a unit |
| Bandwidth.FailingMeans | kubernetes-addons/memory-bandwidth-exporter/collector/common.go:293-312 | a pair of samples fails just if a socket is new or a time stamp does not parse |
| Bandwidth.SumMeans | kubernetes-addons/memory-bandwidth-exporter/collector/common.go:292-325 | sums are sums of real numbers, finite just if every part is |
| Bandwidth.NodeCollector.UpdateStats | kubernetes-addons/memory-bandwidth-exporter/collector/node_collector.go:65-90 | an accepted sample replaces the cache, any other leaves it |
| Bandwidth.Start | kubernetes-addons/memory-bandwidth-exporter/collector/node_collector.go:52-63 | after any samples the cache holds the last accepted one |
| Bandwidth.SumWithout | kubernetes-addons/memory-bandwidth-exporter/collector/common.go:292-325 | the sum does not depend on the order of addition |
| Bandwidth.RatesTelescope | kubernetes-addons/memory-bandwidth-exporter/collector/common.go:313-320 | rate times elapsed adds up to last minus first counter, exactly or modulo 2^64 |
| Bandwidth.NewSocketJamsCollector | kubernetes-addons/memory-bandwidth-exporter/collector/common.go:293-296 | samples with a new socket are refused for good |
| Containers.ContainerCollector.ProcessContainer | kubernetes-addons/memory-bandwidth-exporter/collector/container_collector.go:83-109 | an event removes a container from both maps, or records it and starts a housekeeper |
| Containers.ContainerCollector.HousekeepingTick | kubernetes-addons/memory-bandwidth-exporter/collector/container_collector.go:126-149 | a tick on an unrecorded container ends in deletion |
| Containers.ContainerCollector.UpdateStats | kubernetes-addons/memory-bandwidth-exporter/collector/container_collector.go:151-190 | writes the entry or gives up |
| Containers.NoUncoveredEntry | kubernetes-addons/memory-bandwidth-exporter/collector/container_collector.go:83-149 | in every interleaving in which a container is added only once its earlier housekeepers have ended: if cached, it is recorded or has a housekeeper that will look again |
| Containers.AddIsSafeExactly | kubernetes-addons/memory-bandwidth-exporter/collector/container_collector.go:95-149 | from the states such interleavings reach, adding the container can lead to a leak just if a housekeeper of it still lives |
| Containers.EntryLeaks | kubernetes-addons/memory-bandwidth-exporter/collector/container_collector.go:126-149 | the interleaving in which a container added between the two deletes of its housekeeper leaves its entry behind |
| Containers.LeakStays | kubernetes-addons/memory-bandwidth-exporter/collector/container_collector.go:83-149 | such an entry stays until the next event about its container |
| Containers.LateWritesAreCleared | kubernetes-addons/memory-bandwidth-exporter/collector/container_collector.go:126-188 | once unrecorded, and not added again, a covered container's goroutines can move a bounded number of times and until its entry is gone |
| Containers.RemovedIsForgotten | kubernetes-addons/memory-bandwidth-exporter/collector/container_collector.go:83-188 | a removed container is in neither map, and once its goroutines are through still in neither |

## Left out

- HTTP transport, multipart copying, proxying, timeouts, response streaming and the chat UI handler of the router.
- The query language of gjson, JSON syntax and strings.TrimSpace: arbitrary functions of the world.
- RouterCode.HandleEnsemblePipeline: runs the workers one after the other; their interleaving with the collector is in the state machine. In a run that ends in a panic the calls listed are those the workers would make, an upper bound.
- RouterCode.Collect: indexes the workers' messages under one chosen index; that blocking receives in any interleaving give the same answers is proved of the state machine.
- Depth.Within: an ensemble counts as unanswered while any of its workers is, although a collector that meets a failed Hard step first may answer.
- Cycles.RequestsEndExactly: graphs in which some chain has no step to begin with, where a step may be out of reach, are covered one way only (`NodeAnswers`, `TrapNeverAnswers`).
- YAML decoding, template text, scheme conversion and owner references: any failure there counts as a failed apply.
- Manifests.EndpointsFound: whether the URL of a downstream service is found, not the environment variable it goes into; a manifest Service of type ExternalName counts as one without ports.
- Manifests.GetServiceUrl: reads the service type and ports as the API server returns them, given with the manifest.
- Resource identity is the four recorded fields: a manifest that changes the API version of a kind between passes is not modelled.
- ConnectorStatus.CollectResourceStatus: the external count it reads is unbounded, where the code refuses one outside the 64-bit range.
- Retry timing of applies, event filters, concurrent reconciles of one object (the framework serialises them).
- Certificates, webhook registration, log level, generated code.
- CPU and memory figures, file reading, metric emission and the class collector: they add no harder arithmetic or state.
- Bandwidth.Rate: real arithmetic without rounding; the 64-bit wrap-around is exact.
- Containers.ContainerCollector.ProcessContainer: one container of an event; creating its monitor group, the early return when that fails, and the scan for its processes are not modelled.
- Containers.ContainerCollector.UpdateStats: reading and comparing the counters is an argument; `Bandwidth.dfy` has the arithmetic.
- Containers.NoUncoveredEntry: an event of the loop is one step, and so is each map access; that Go ends a process it catches accessing a map concurrently is not modelled.
- The guardrails proxy, Helm charts, KubeAI and dashboards.
