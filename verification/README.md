# PetalFlow verification

A Dafny model of PetalFlow's execution core with machine-checked proofs. PetalFlow compiles an
agent/task workflow to a graph definition, validates the definition, turns it into an adjacency graph
and runs it with a sequential or a parallel engine; around that core it delivers events, maps over
collections, merges branches and polls schedules.

`dafny verify dfyconfig.toml` checks the whole project.

## How it is organised

| files | what they model |
|---|---|
| `Sequences`, `Digraphs`, `Kahn` | shared facts about sequences, paths and cycles; the worklist loop of Kahn's algorithm |
| `BasicGraph`, `Definition` | the mutable adjacency graph; serialized definitions, their validation and conversion |
| `Envelope`, `Events` | the data handed between nodes and how it routes; numbered events and the grammar of a trace |
| `Worklist`, `PathCount`, `SequentialRuntime` | laws of the FIFO worklist and when its cap binds; the sequential engine with hop limits, routing and step control |
| `ParallelRuntime`, `ParallelEngine` | the coordinator and workers as interleaved steps, and the code of each step |
| `ParallelCounts` | what is submitted, how often and in which order, in terms of the graph and the run's history |
| `ParallelTermination`, `ParallelEndless`, `ParallelFeeding`, `ParallelExactlyOnce`, `ParallelConfluence`, `ParallelCompletion` | what holds of all interleavings |
| `ParallelDriver` | whole parallel runs under an arbitrary scheduler |
| `Merge`, `DeepMerge` | merging the variables of branches, and when the order matters |
| `AgentWorkflow`, `EdgeOrder`, `AgentCompiler` | workflow validation; the compiler and the order it sorts edges in |
| `CompilerDeterminism`, `CompilerLaws`, `CompiledGraph`, `CompiledWiring`, `EndToEnd` | why map order does not show, what compilation preserves, exactly what it produces, and compile-build-run |
| `MemBus`, `EventStream`, `Throttle` | the event bus, the replay-then-live stream, the throttling emitter |
| `MapNode`, `NestedMap`, `Scheduler` | the map worker pool, dotted paths into nested maps, the schedule poller |

Nodes, routers, step controllers, mappers and factories are arbitrary functions or oracles. Clocks,
randomness, context cancellation outside the sequential engine, and everything behind a network or
store call are parameters or open choices of the model. Iteration over a Go map is an arbitrary choice.
Concurrent code is a state machine whose actions are the atomic steps of its goroutines; a run is any
sequence of enabled actions. The classes beside the machines carry the code of each step, and drivers
(`ParallelDriver.RunParallel`, `MapNodes.MapConcurrent`, `Throttling.Interleave`, `Scheduling.Interleave`)
run them under an arbitrary scheduler.

## Findings

- Sequential engine: the hop-limit error cannot be reached, because a node without hops left is
  skipped first.
- Parallel engine: at most 5 * concurrency items fit. Scheduling a result can deadlock the run exactly
  when what is outstanding and still to be pushed exceeds that (`ParallelRuntime.JamsIff`); an
  acyclic graph whose joins are merges and whose width is within that bound never does
  (`ParallelCompletion.NarrowGraphsComplete`). The hop limit
  ends every run unless a cycle consists of merges only, because only merges get their hops reset
  (`ParallelTermination.NoInfiniteRun`). On such a cycle a run can go on for ever if the cycle is reached,
  its merges are ready after one input and nodes may choose a single successor
  (`ParallelEndless.MergeCycleOutrunsHopLimit`); with such nodes, and
  where no run jams, merges that wait for several inputs can keep going exactly if some run fills a whole
  cycle of them (`ParallelFeeding.EndlessIffCycleFilled`).
- Merge inputs arrive in completion order although `nodes/merge.go:17` speaks of graph order; the
  result is independent of it exactly under the conditions proved in `Merging` and `DeepMerging`.
- `task_order` with a repeat, or with a task that refers to itself or to a later one, is accepted by AT-006
  and compiles to a cyclic graph, and no other accepted order does (`EndToEnd.OrderIsAcyclicIff`);
  undefined keys in `execution.tasks` can hide a dependency cycle (`AgentWorkflows.StraysHideACycle`);
  names with double underscores can clash (`CompiledGraphs.AmbiguousIds`); the custom strategy enters at the first
  task without declared dependencies even if that task refers to another one (`CompiledWiring.EntryIsARoot`).
- The runtime publishes an event before it stores it, so a stream that subscribes and lists in between
  loses it (`EventStreams.PublishFirstLosesAnEvent`). With a single emitter it loses no more than one
  (`EventStreams.PublishFirstLosesAtMostOne`). With several, numbers are taken before publishing and
  without a lock, so an event can also be published after a higher number and is then skipped
  (`EventStreams.OvertakenEventIsLost`); `EventStreams.StreamIsComplete` gives the exact condition.
- Flattening a map under the empty top-level key, an empty inner map or a key with a dot does not
  round-trip (`NestedMaps.RoundTrip`).
- Runs of one schedule can overlap exactly when some Start launches a poll loop beside one that has not
  ended, which starting before a Stop has returned nil allows (`Scheduling.OverlapIffLaunchedBeside`).

## Model

| member | source | states |
|---|---|---|
| `BasicGraphs.BasicGraph.AddNode` | graph/graph.go:119-141 | a nil node or a known ID is rejected and changes nothing; otherwise the node is added; edge list and both adjacency maps keep agreeing |
| `BasicGraphs.BasicGraph.AddEdge` | graph/graph.go:145-165 | an edge from or to a missing node is rejected; a node pair is kept once; edge list and both adjacency maps keep agreeing |
| `BasicGraphs.BasicGraph.SetEntry` | graph/graph.go:169-175 | the entry changes only to an existing node |
| `BasicGraphs.BasicGraph.TopologicalSort` | graph/graph.go:197-234 | succeeds exactly on acyclic graphs (or when cycles are allowed), whatever the map order, with every edge pointing forward; lists without repeats exactly the nodes not below a cycle |
| `BasicGraphs.BasicGraph.Reachable` | graph/graph.go:237-255 | lists without repeats exactly the nodes a path leads to |
| `Kahn.Drain` | graph/graph.go:197-234 | the worklist loop that the repository writes three times ends, and from a repeat-free seeding lists exactly the nodes not below a cycle, on multigraphs too |
| `Kahn.CloseEdges` | graph/graph.go:219-225 | closing the edges of one node keeps every counter equal to its open edges and queues a node when its last edge closes |
| `Kahn.Drained` | graph/graph.go:197-234 | when the queue is empty the nodes left out are exactly those on or below a cycle |
| `Definitions.CheckDuplicates` | graph/definition.go:105-116 | GR-005 names exactly the IDs that occur twice, and is silent exactly when node IDs are distinct |
| `Definitions.CheckEdgeRefs` | graph/definition.go:118-136 | GR-001 names exactly the edge ends that are no node, and is silent exactly when there are none |
| `Definitions.CheckOrphans` | graph/definition.go:148-166 | GR-002 names exactly the nodes without any edge, unless there is only one node |
| `Definitions.CountEdges` | graph/definition.go:470-479 | in-degrees and successor lists count every parallel edge |
| `Definitions.QueueSources` | graph/definition.go:481-487 | the queue starts with exactly the nodes that no edge enters |
| `Definitions.DetectCycle` | graph/definition.go:469-513 | on distinct IDs it is silent exactly on acyclic multigraphs and otherwise names exactly the nodes on or below a cycle |
| `Definitions.Validate` | graph/definition.go:98-184 | GR-001, GR-002, GR-004, GR-005 and GR-007 are each reported exactly when their condition holds; no error exactly when IDs are distinct, edges closed, the entry exists, there is no cycle and the header and conditional rules report none |
| `Definitions.ToGraph` | graph/definition.go:532-587 | succeeds exactly on buildable definitions and then yields the denoted graph, with valid adjacency |
| `Definitions.DistinctKeepsLinks` | graph/graph.go:145-165 | dropping repeated node pairs leaves the same links |
| `Definitions.FirstSourceFound` | graph/definition.go:563-579 | the default entry is the first node in definition order that nothing leads into; there is none exactly when every node has an inbound edge |
| `Definitions.SoundDefinitionsBuild` | graph/definition.go:532-587 | a definition that passes validation builds under every ID-preserving factory, with the same links; without an entry it starts at the first node nothing leads into, and falls back to the first node listed only when that one has the empty ID |
| `Definitions.BuildValidated` | graph/definition.go:98-184 | no validation error implies that the built graph sorts into a permutation of its nodes with every edge pointing forward |
| `Events.Emitter.Emit` | runtime/runtime.go:140-155 | events are numbered from 1 without gaps |
| `Events.CompleteTraceIsBracketed` | runtime/runtime.go:140-207 | in a complete trace run.started is first and unique, run.finished last and unique, and every node.started is closed by one node.finished or node.failed of the same node with only its own output between |
| `SequentialRuntime.ExecuteNode` | runtime/runtime.go:934-976 | one execution emits node.started, the node's own output, and node.finished or node.failed as the node succeeded or failed |
| `SequentialRuntime.HandleStepPoint` | runtime/runtime.go:980-1071 | the controller's answer decides skip, abort and envelope changes; its failure aborts; a pause and its resumption are announced |
| `SequentialRuntime.DetermineSuccessors` | runtime/runtime.go:845-931 | a valid redirect is the only target and its hint alone is cleared; otherwise a router's stored decision keeps exactly the successors it names, in graph order; otherwise all follow; exactly a followed redirect and a decision are announced, with the targets they name |
| `Envelopes.RedirectWins` | runtime/runtime.go:861-885 | with a valid redirect there is exactly that one target, the hint is gone afterwards and no other variable changes |
| `Envelopes.DecisionFilters` | runtime/runtime.go:887-931 | without one, a router with a stored decision goes on to exactly the graph successors the decision names, in graph order, with the envelope unchanged |
| `Envelopes.RouteFollows` | runtime/runtime.go:845-931 | every routing is one of: a followed redirect, a stored decision, all successors |
| `SequentialRuntime.ProcessNode` | runtime/runtime.go:246-305 | one iteration: the node starts from the envelope as the controller changed it, hands on its result, or what it touched with one more error naming it and its hop, and sends it to the routed successors; what runs and what is emitted is a function of the world at that moment |
| `SequentialRuntime.TurnFacts` | runtime/runtime.go:246-305 | whatever node and controller do, an iteration enqueues only graph successors, fails only through the node that ran, and runs its node unless it was skipped or stopped |
| `SequentialRuntime.TurnFollowsAll` | runtime/runtime.go:845-931 | without redirects and routers an iteration that goes on enqueues every graph successor, in order |
| `SequentialRuntime.TurnHandsOn` | runtime/runtime.go:246-305 | an iteration that goes on hands its envelope on in this way, stated without reference to how it is computed |
| `SequentialRuntime.TurnEnds` | runtime/runtime.go:335-475 | exactly when an iteration runs its node, and when a failing controller, an abort before or after the node, or the node's failure ends the run |
| `SequentialRuntime.TurnAnnounces` | runtime/runtime.go:335-475 | exactly which node and step events an iteration emits |
| `SequentialRuntime.ExecuteSequential` | runtime/runtime.go:230-308 | terminates for every node, router and controller behaviour with no node above the hop limit; the hop-limit and missing-node errors cannot happen; a completed run is accounted for by its log of dequeued nodes |
| `SequentialRuntime.UnfoldsPassesAlong` | runtime/runtime.go:230-308 | leaving out the capped nodes, the k-th processed node starts from the envelope the one before it handed on |
| `SequentialRuntime.PlainRunPassesResults` | runtime/runtime.go:230-308 | without controller, routers and redirects each processed node receives the result of the one before it, or what a failed one touched with one more error, and the last of these is returned |
| `SequentialRuntime.Run` | runtime/runtime.go:115-207 | a rejected graph emits nothing; any other run emits a complete numbered trace whose node.started events are exactly the executions; a completed run unfolds along its log: each processed node, on its own hop, takes the envelope from the one before to the next and is followed by its routed successors, a node at its hop limit changes nothing, up to the returned envelope; under a step controller too |
| `Worklists.LogStep` | runtime/runtime.go:246-305 | dequeuing a node and enqueuing what follows it extends the log |
| `Worklists.CountEquation` | runtime/runtime.go:238-308 | hops(n) is the minimum of the limit and one for being the entry plus the hops of its predecessors |
| `Worklists.AttemptedCount` | runtime/runtime.go:246-305 | a node is processed exactly as often as it has hops |
| `Worklists.VisitedIsReachable` | runtime/runtime.go:238-308 | a completed run without routing visits exactly what the entry reaches |
| `Worklists.SuccessorsRunLater` | runtime/runtime.go:246-305 | when the limit never binds, every execution of a node is followed by one of each successor |
| `Worklists.LastRunsFollowPredecessors` | runtime/runtime.go:246-305 | when the limit never binds, the last execution of a node follows the last execution of each predecessor |
| `Worklists.ReachableCycleHitsCap` | runtime/runtime.go:310-316 | a cycle the entry reaches always makes the limit bind |
| `Worklists.LogIsDetermined` | runtime/runtime.go:230-308 | without routing the execution order depends on the graph and the limit alone |
| `PathCounts.UncappedIffFewPaths` | runtime/runtime.go:310-316 | on an acyclic graph the limit never binds if and only if no node has more paths from the entry than the limit |
| `PathCounts.PathCountIsExact` | runtime/runtime.go:238-308 | the path count used there is the number of different paths from the entry |
| `PathCounts.FewPathsOrderLastRuns` | runtime/runtime.go:246-305 | with at most as many paths as the limit, the last execution of a node follows the last execution of each predecessor |
| `ParallelEngine.Engine.constructor` | runtime/runtime.go:584-610 | the engine starts with the entry submitted and one result pending |
| `ParallelEngine.Engine.TakeWork` | runtime/runtime.go:661-668 | an idle worker takes the oldest work item |
| `ParallelEngine.Engine.PutResult` | runtime/runtime.go:678-683 | a worker sends its node's answer to the result channel |
| `ParallelEngine.Engine.ReceiveResult` | runtime/runtime.go:690-712 | a received result counts a hop, lowers the pending counter and fixes the successors: the followed redirect, those a decision names, or all |
| `ParallelEngine.Engine.ScheduleSuccessor` | runtime/runtime.go:755-792 | an ordinary successor with hops left is submitted, a merge collects, a missing or exhausted one is passed over |
| `ParallelEngine.Engine.ScheduleMerge` | runtime/runtime.go:794-841 | a merge collects the result and is submitted, with fresh hops and everything collected, exactly when its inputs reach the expected number; `ParallelCounts` pins that number down |
| `ParallelEngine.Engine.SettleResult` | runtime/runtime.go:629-630 | the handled result becomes the latest and the additions are counted |
| `ParallelEngine.Engine.Return` | runtime/runtime.go:634-644 | the run returns the latest result, or its input when there is none |
| `ParallelCounts.MergeSubmissions` | runtime/runtime.go:805-841 | in every reachable state a merge configured for k inputs, or for none and with k predecessors, has been submitted once for its k-th input and for each later one, and once more if it is the entry |
| `ParallelCounts.OfferedSuccessor` | runtime/runtime.go:755-841 | in every reachable state an offered node is submitted with the result at hand exactly while it has been processed fewer than maxHops times, and an offered merge with all it has received exactly when that is enough |
| `ParallelCounts.StartedInSubmissionOrder` | runtime/runtime.go:661-668 | workers start nodes in the order of their submission |
| `ParallelRuntime.RunsStayBalanced` | runtime/runtime.go:609-632 | in every reachable state pending plus added equals the items in both channels and the pool |
| `ParallelRuntime.StuckMeansJammed` | runtime/runtime.go:584-632 | no step is possible exactly when the engine has returned or a push waits while all 5 * concurrency places are taken |
| `ParallelRuntime.ReachableStuckMeansJammed` | runtime/runtime.go:584-632 | the deadlock condition holds of every reachable state |
| `ParallelRuntime.PushCompletes` | runtime/runtime.go:782-790 | a push completes while at most 5 * concurrency items are outstanding after it, after a bounded number of worker steps |
| `ParallelRuntime.JamsIff` | runtime/runtime.go:755-792 | while one result is scheduled, some interleaving jams if and only if the items outstanding plus those still to be pushed, merges and exhausted nodes accounted for, exceed 5 * concurrency |
| `ParallelRuntime.SomeRunJamsIff` | runtime/runtime.go:584-632 | some run deadlocks if and only if some run reaches a result whose successors do not fit |
| `ParallelRuntime.WideFanOutJams` | runtime/runtime.go:584-632 | a first result with 5 * concurrency + 1 ordinary successors has an interleaving that jams |
| `ParallelTermination.ReceiveDecreases` | runtime/runtime.go:506-517 | every processed result decreases the pair of hops left and outstanding items of exhausted nodes |
| `ParallelTermination.StepDecreases` | runtime/runtime.go:609-632 | once the merges that can be in flight are weighed, every step of any goroutine decreases a well-founded measure |
| `ParallelTermination.WeightsExist` | runtime/runtime.go:532-536 | any set of merges can be weighed when no cycle consists of them only |
| `ParallelTermination.NoInfiniteRun` | runtime/runtime.go:576-645 | unless some cycle consists of merges only, no interleaving goes on for ever, whatever the other cycles and the nodes do |
| `ParallelTermination.LiveMergesNeedACycle` | runtime/runtime.go:532-536 | no interleaving goes on for ever if from some point on the merges in flight come from a set without a cycle of its own |
| `ParallelEndless.MergeCycleOutrunsHopLimit` | runtime/runtime.go:532-536 | a cycle of merges that are ready after one input, reached from the entry through nodes that pass the first input on, allows an endless run whatever the hop limit, when nodes may steer to a single successor |
| `ParallelEndless.EndlessIffMergeCycle` | runtime/runtime.go:532-536 | where every node is reachable, every merge ready after one input and nodes may steer, an endless run exists if and only if some cycle consists of merges only |
| `ParallelEndless.FreeNodesMaySteer` | runtime/runtime.go:845-931 | nodes that may answer anything can steer the run to any one successor |
| `ParallelFeeding.EndlessFillsACycle` | runtime/runtime.go:550-559 | every endless run fills all the merges of some cycle of merges, that is gives each as many inputs as it waits for |
| `ParallelFeeding.AliveIsEndless` | runtime/runtime.go:550-559 | where no run jams and nodes may steer, a run with something in flight on a cycle of filled merges can go on for ever, because inputs are kept and every further one makes a filled merge run again |
| `ParallelFeeding.EndlessIffCycleFilled` | runtime/runtime.go:532-559 | where no run jams and nodes may steer, an endless run exists if and only if some run fills every merge of a cycle of merges, however many inputs they wait for |
| `ParallelExactlyOnce.RunsStayOrderly` | runtime/runtime.go:690-719 | conservation of nodes, delivery of results and readiness of merges hold in every reachable state |
| `ParallelExactlyOnce.StartsAfterPredecessors` | runtime/runtime.go:657-687 | whatever a worker picks up has all its predecessors processed |
| `ParallelExactlyOnce.NeverStartsTwice` | runtime/runtime.go:657-687 | no node is picked up twice |
| `ParallelExactlyOnce.ExactlyOnce` | runtime/runtime.go:576-645 | on joined acyclic graphs, where nothing brings up a redirect, a run that returns has executed every node exactly once, predecessors first, each merge fed once per predecessor |
| `ParallelExactlyOnce.SinkComesLast` | runtime/runtime.go:609-632 | a unique sink is processed last |
| `ParallelExactlyOnce.ReturnsSinkResult` | runtime/runtime.go:634-644 | with a unique sink the run returns the sink's result |
| `ParallelConfluence.RunsStayFaithful` | runtime/runtime.go:690-719 | every envelope in flight is the one the graph's equations give |
| `ParallelConfluence.EveryRunFindsSolution` | runtime/runtime.go:576-645 | with deterministic nodes every run that returns gives the solution of the graph's equations |
| `ParallelConfluence.EvaluationSolves` | nodes/merge.go:143-172 | evaluation in topological order solves the equations when every merge settles, that is gives one result in any arrival order |
| `ParallelConfluence.ScheduleDoesNotMatter` | runtime/runtime.go:550-559 | when the variables that meet at each merge are harmless under its policy, all schedules return the same envelope, the one a topological evaluation gives |
| `ParallelConfluence.MergeNodesNeverRoute` | nodes/merge.go:68-72 | merge nodes that hand the merged envelope on unchanged meet the premise on routing, which only asks that nodes and merges bring up no redirect of their own |
| `ParallelCompletion.JoinedRunsEnd` | runtime/runtime.go:609-632 | no interleaving of a joined run goes on for ever |
| `ParallelCompletion.NarrowGraphsComplete` | runtime/runtime.go:584-632 | when the nodes that can run next always number at most 5 * concurrency, however far the run has come, a run that cannot go on has returned |
| `ParallelCompletion.NarrowIffWidth` | runtime/runtime.go:584-632 | that holds if and only if at most 5 * concurrency nodes are independent of each other, that is by the width of the graph |
| `ParallelCompletion.SmallGraphsComplete` | runtime/runtime.go:584-632 | in particular, a joined graph with at most 5 * concurrency nodes completes |
| `ParallelDriver.Drive` | runtime/runtime.go:609-632 | the engine, driven by any scheduler until no step is possible, always stops when no cycle consists of merges only, and its state is that of a legal run |
| `ParallelDriver.RunParallel` | runtime/runtime.go:576-645 | under any scheduler the run returns unless it jams; on joined graphs a run that returns executed every node once, predecessors first, and returns a unique sink's result; on joined graphs of width at most 5 * concurrency it returns |
| `ParallelDriver.RunDeterministic` | runtime/runtime.go:576-645 | with deterministic nodes and merges harmless under their own policies, whatever the scheduler, a run that returns gives the sink's result of a one-pass evaluation, and it returns when the width is at most 5 * concurrency |
| `Merging.MergeVars` | nodes/merge.go:174-209 | whatever the key order, one map is merged into another as the policy says; the failing policy fails exactly on a shared key |
| `Merging.MergeInputs` | nodes/merge.go:75-90 | no input gives the empty map, one is passed through, several are folded from the first |
| `Merging.AgreeingInputsMergeToUnion` | nodes/merge.go:143-172 | inputs that agree on shared keys merge to their union |
| `Merging.MergeIgnoresOrder` | nodes/merge.go:143-209 | inputs that agree on shared keys merge to the same variables in any order |
| `Merging.ConflictsFail` | nodes/merge.go:183-185 | the failing policy fails exactly when two inputs share a key |
| `Merging.ConflictsIgnoreOrder` | nodes/merge.go:183-185 | failure and result of the failing policy never depend on the order |
| `Merging.MergedEnvelopeIgnoresOrder` | nodes/merge.go:143-172 | error-free envelopes whose variables merge alike in any order merge to the same envelope |
| `Merging.MergedErrors` | nodes/merge.go:143-172 | the merged envelope carries the errors of every input, end to end in input order |
| `Merging.MergeStaysUnrouted` | nodes/merge.go:143-209 | merging envelopes that ask for no redirect gives one that asks for none, under every policy |
| `Merging.OrderIndependentIffAgreeing` | nodes/merge.go:181-209 | without deep merging the order is irrelevant if and only if the inputs agree on shared keys |
| `DeepMerging.DeepOrderIndependentIffCompatible` | nodes/merge.go:189-202 | with deep merging the order is irrelevant if and only if shared keys are compatible all the way down |
| `DeepMerging.FoldIgnoresOrder` | nodes/merge.go:189-202 | compatible nested maps can be overlaid in any order |
| `DeepMerging.OverlayLeaves` | nodes/merge.go:189-202 | a deep merge holds exactly the leaves of the later map and those of the earlier one that the later does not touch |
| `DeepMerging.SettlesIffHarmless` | nodes/merge.go:181-209 | inputs merge successfully and alike in any order if and only if they share no key (failing policy), agree on shared keys (keep first, or keep last without deep merging), or are compatible all the way down (deep merging) |
| `AgentWorkflows.ValidateSequential` | agent/validate.go:370-400 | AT-006 is silent exactly when task_order is present and lists exactly the defined tasks; repeats are not noticed |
| `AgentWorkflows.CountDependencies` | agent/validate.go:413-433 | the counted edges are the declared dependencies between known tasks; AT-008 is reported exactly when some dependency is unknown |
| `AgentWorkflows.ValidateCustom` | agent/validate.go:403-483 | AT-007 and AT-008 are reported exactly when the length comparison and the lookup say so, AT-013 exactly for the conditions the parser refuses |
| `AgentWorkflows.CycleReportExact` | agent/validate.go:435-466 | a reported cycle exists; without stray keys AT-007 is reported exactly when depends_on is cyclic |
| `AgentWorkflows.StraysHideACycle` | agent/validate.go:422-456 | undefined keys in execution.tasks can hide a cycle |
| `AgentCompiler.CompileTaskTools` | agent/compile.go:127-175 | standalone tools become a chain of nodes typed by their tool, in order |
| `AgentCompiler.CompileTaskBody` | agent/compile.go:99-123 | a prompt node follows the tools and takes their output as context |
| `AgentCompiler.CompileTaskNode` | agent/compile.go:90-125 | a task becomes the chain of its tools, itself and its gate, with its first and last node recorded |
| `AgentCompiler.AppendHumanReview` | agent/compile.go:231-259 | a reviewed task gets a human gate that becomes its output |
| `AgentCompiler.CompileTaskNodes` | agent/compile.go:70-88 | succeeds exactly when every task's agent is defined |
| `AgentCompiler.WireTaskReferenceEdges` | agent/compile.go:262-307 | input and context references to defined tasks become edges from output to start |
| `AgentCompiler.CompileSequential` | agent/compile.go:346-380 | an empty order is rejected, an unknown task only when the order has several; consecutive tasks are linked; an order of one unknown task leaves the entry empty |
| `AgentCompiler.ChainOrder` | agent/compile.go:361-378 | each task's output feeds the start of the next |
| `AgentCompiler.WireCondition` | agent/compile.go:526-573 | a conditional dependency goes through one condition node, added unless its ID is taken |
| `AgentCompiler.WireDependencies` | agent/compile.go:510-591 | declared dependencies between tasks become edges, through condition nodes where asked |
| `AgentCompiler.ChooseEntry` | agent/compile.go:593-601 | no entry exactly when every task declares dependencies; otherwise the start of the first task that is not listed or declares none |
| `AgentCompiler.CompileCustom` | agent/compile.go:473-606 | dependencies and condition nodes of the custom strategy, entered at the first task without declared dependencies |
| `AgentCompiler.CompileExecutionStrategy` | agent/compile.go:309-327 | the strategy decides success, the further edges and nodes, and the entry |
| `EdgeOrders.SortEdges` | agent/compile.go:329-343 | the same edges; sources never decrease, nor targets for one source, then source handles, then target handles |
| `EdgeOrders.LessIsLexicographic` | agent/compile.go:329-343 | strings are compared as Go does: a proper prefix comes first, otherwise the first difference decides |
| `EdgeOrders.OrderIsUnique` | agent/compile.go:329-343 | edges have one order only: lists of the same edges are sorted into the same list |
| `AgentCompiler.Compile` | agent/compile.go:20-47 | succeeds exactly on compilable workflows; edges, in order, and nodes with their types are the specified ones; the entry is the first task of the order, or the first task without declared dependencies; without clashing IDs the nodes are one per compiled name |
| `CompilerDeterminism.InputsShuffled` | agent/compile.go:276-291 | walking a task's inputs in another order creates the same edges |
| `CompilerDeterminism.CompileTwice` | agent/compile.go:20-47 | two compilations that walk the input maps in different orders both fail or give the same definition |
| `CompilerLaws.LinkExplained` | agent/compile.go:473-606 | every compiled link is within a task, hands over a dependency or leaves a condition node |
| `CompilerLaws.PathLeads` | agent/compile.go:473-606 | a path of compiled links moves on within a task or follows dependencies |
| `CompilerLaws.CompilationPreservesDependencies` | agent/compile.go:473-606 | by name, nodes of different tasks are connected exactly along transitive dependencies |
| `CompilerLaws.CompilationPreservesCycles` | agent/compile.go:473-606 | by name, the compiled links are cyclic exactly when the dependencies are |
| `CompiledGraphs.LinksRendered` | agent/compile.go:329-343 | rendering and sorting keep the links |
| `CompiledGraphs.CompiledDefinition` | agent/compile.go:473-606 | with distinct IDs the compiled definition has distinct nodes and closed edges and is cyclic exactly when the dependencies are |
| `CompiledGraphs.UniverseIsCompiled` | agent/compile.go:473-606 | the names that must be told apart for IDs to be distinct are exactly those the custom strategy compiles |
| `CompiledGraphs.CompiledReachability` | agent/compile.go:473-606 | with distinct IDs a node of one task reaches a node of another exactly when the other transitively depends on it |
| `CompiledGraphs.CompileAndDetect` | graph/definition.go:469-513 | cycle detection on a compiled workflow is silent exactly when no task depends on itself |
| `CompiledGraphs.PlainNamesGiveDistinctIds` | agent/compile.go:99-151 | names without a double underscore inside, without a trailing underscore on tasks and agents, and without a few clashes make all compiled node IDs distinct |
| `CompiledGraphs.AmbiguousIds` | agent/compile.go:99 | for any names a, b and c there is a workflow with agents defined and two tasks compiled to one node ID |
| `CompiledWiring.ChainEnds` | agent/compile.go:90-259 | a task is entered at its first standalone tool, or at itself, and left at its human gate, or at itself |
| `CompiledWiring.CompiledWiresAre` | agent/compile.go:90-606 | under the custom strategy the edges are exactly these, with these handles: along a task, from each task an input mentions to the handle named after the input, from each context task, and from each dependency directly or through its condition node, whose exit is named after the start it leads to |
| `CompiledWiring.SequentialWiresAre` | agent/compile.go:90-380 | under the sequential strategy the edges are exactly those along tasks, from references, and between consecutive tasks of the order |
| `CompiledWiring.StartEnteredIff` | agent/compile.go:473-606 | with distinct IDs an edge arrives at the start of a task exactly when it refers to or declares a dependency on a defined task |
| `CompiledWiring.EntryIsARoot` | agent/compile.go:593-601 | the custom entry is the first task without declared dependencies, and an edge arrives there exactly when that task refers to another |
| `CompiledWiring.CompiledNodesAre` | agent/compile.go:90-606 | with distinct IDs the nodes are exactly one prompt node per task, a human gate per review, a node per standalone tool typed as that tool, and a conditional per guarded dependency |
| `EndToEnd.OrderIsALine` | agent/compile.go:346-380 | following task_order, the compiled links form one line |
| `EndToEnd.SequentialDefinition` | agent/compile.go:346-380 | the sequentially compiled definition is a line over all nodes, entered at its first |
| `EndToEnd.LineRun` | runtime/runtime.go:230-308 | a completed plain run over a line executes the line |
| `EndToEnd.CompileAndRun` | runtime/runtime.go:115-207 | compile, build and run: every compiled node executes exactly once, tasks in task_order, within a task tools, then the task, then its gate |
| `EndToEnd.OrderIsAcyclicIff` | agent/validate.go:381-397 | an accepted task_order compiles to an acyclic graph if and only if it has no repeats and every task refers only to tasks strictly before it |
| `EndToEnd.CompileOrderAndDetect` | agent/compile.go:262-307 | compile an accepted order with any references and look for cycles: silent under exactly that condition |
| `MemBuses.MemSub.Send` | bus/membus.go:140-153 | an event is buffered unless the subscription is closed or full |
| `MemBuses.MemSub.Close` | bus/membus.go:128-136 | closing is idempotent and keeps what is buffered |
| `MemBuses.MemSub.Receive` | sse/handler.go:192-196 | buffered events arrive in order, also after closing; then the channel reports its end |
| `MemBuses.MemBus.Publish` | bus/membus.go:40-57 | every matching subscription is offered the event exactly once, no other is touched, and a closed bus offers it to nobody |
| `MemBuses.MemBus.Subscribe` | bus/membus.go:61-68 | a new open subscription is registered for one run, without repeats |
| `MemBuses.MemBus.SubscribeAll` | bus/membus.go:72-79 | a new open subscription is registered for all runs |
| `MemBuses.MemBus.Close` | bus/membus.go:82-101 | the bus and every subscription are closed |
| `EventStreams.Stream.ReplayStored` | sse/handler.go:140-173 | the listed events are written up to run.finished or the first failure, in increasing order |
| `EventStreams.Stream.StreamLive` | sse/handler.go:177-221 | whatever arrives, only events above the last one written are written, up to run.finished or a failure |
| `EventStreams.Serve` | sse/handler.go:117-135 | whatever is stored and arrives and whenever the connection breaks, the written sequence numbers strictly increase above the cursor |
| `EventStreams.ServedExactly` | sse/handler.go:140-221 | for every listing and every feed, unless events are numbered above run.finished, the stream writes exactly the listed events and those higher than the cursor, the listing and everything fed before |
| `EventStreams.RunsStayInStep` | sse/handler.go:117-221 | in every interleaving with producers that publish and store in any orders, as long as nothing is dropped, what was written is a function of what was listed and what was received |
| `EventStreams.StreamIsComplete` | sse/handler.go:117-221 | whatever the orders of publishing and storing, an undropped settled stream is exactly the run's events above the cursor if and only if none of them was published before Subscribe and stored only after List, none was overtaken by a higher number that was listed or published since Subscribe, and none is numbered above run.finished |
| `EventStreams.LossesExplained` | sse/handler.go:117-221 | event by event: what such a stream lacks is exactly what was missed between Subscribe and List or overtaken |
| `EventStreams.LossIsBounded` | runtime/runtime.go:141-154 | with at most w events published and not yet stored at any time, at most w are missed, and everything else lacking was overtaken |
| `EventStreams.InOrderStreamIsComplete` | sse/handler.go:117-221 | with a single emitter, which publishes and stores in number order, the stream is complete if and only if no event above the cursor was published before Subscribe and stored only after List |
| `EventStreams.StoreFirstMissesNothing` | sse/handler.go:117-135 | storing before publishing, in whatever orders, misses nothing between Subscribe and List |
| `EventStreams.StoreFirstIsComplete` | sse/handler.go:117-135 | a single emitter that stores before it publishes makes every undropped settled stream complete |
| `EventStreams.RoomyBufferNeverDrops` | bus/membus.go:140-153 | a buffer that can hold the run never drops |
| `EventStreams.PublishFirstLosesAnEvent` | runtime/runtime.go:143-148 | a single emitter that publishes each event before it stores it admits an undropped settled stream that lost an event |
| `EventStreams.PublishFirstLosesAtMostOne` | runtime/runtime.go:143-148 | with a single emitter that has at most one event published and not yet stored, an undropped settled stream lacks at most one event |
| `EventStreams.OvertakenEventIsLost` | runtime/runtime.go:141-154 | two emitters at once admit an undropped settled stream that missed nothing and yet lost an event, published after a higher number |
| `Throttling.ThrottledEmitter.Emit` | bus/throttle.go:58-74 | other events pass at once; a delta replaces the pending one of its node until the emitter is closed |
| `Throttling.ThrottledEmitter.StartFlush` | bus/throttle.go:115-125 | a flush takes over all pending deltas, or ends at once when there are none |
| `Throttling.ThrottledEmitter.FlushOne` | bus/throttle.go:127-129 | a delta of the batch is forwarded, in any order |
| `Throttling.ThrottledEmitter.MarkClosed` | bus/throttle.go:78-85 | only the first Close goes on to stop the loop |
| `Throttling.Interleave` | bus/throttle.go:58-130 | in every interleaving the deltas forwarded for a node are a subsequence of those accepted, other events pass once and in order, and after the loop has exited nothing is pending and each node's last forwarded delta is its last accepted one |
| `Throttling.Close` | bus/throttle.go:78-111 | the Close that performs the shutdown returns, with nothing pending and every accepted delta forwarded or superseded |
| `MapNodes.MapSequential` | nodes/map.go:125-147 | fails exactly when an item fails and errors are not tolerated, at the first such item; otherwise every item is mapped, failed ones to nil |
| `MapNodes.WorkerPool.SubmitNext` | nodes/map.go:206-214 | the submitter puts the next item on the channel |
| `MapNodes.WorkerPool.TakeItem` | nodes/map.go:178-181 | a waiting worker takes the oldest item |
| `MapNodes.WorkerPool.RecordResult` | nodes/map.go:183-200 | a result is written at its own index, a tolerated failure as nil, and the first other failure cancels the pool |
| `MapNodes.PoolInvariant` | nodes/map.go:150-221 | items and workers are conserved and results are right in every reachable state |
| `MapNodes.ProcessedOnce` | nodes/map.go:170-204 | no item is processed twice |
| `MapNodes.PoolRefinesSequential` | nodes/map.go:150-221 | a finished pool fails exactly when the sequential map does and otherwise processed every item once with the sequential results |
| `MapNodes.PoolTerminates` | nodes/map.go:150-221 | every interleaving ends within a bounded number of steps |
| `MapNodes.PoolNeverSticks` | nodes/map.go:150-221 | an unfinished pool can always take a step |
| `MapNodes.MapConcurrent` | nodes/map.go:150-221 | under any scheduler the pool ends, fails exactly when the sequential map does, naming a failing item, and otherwise returns the sequential results |
| `NestedMaps.GetNestedValue` | nodes/helpers.go:104-120 | walks down the pieces of the path and finds what is there |
| `NestedMaps.GetAfterSet` | nodes/helpers.go:123-141 | a value set at a path is found there |
| `NestedMaps.LeavesAfterSet` | nodes/helpers.go:123-141 | setting a free path changes that leaf and no other |
| `NestedMaps.OtherPathsAfterSet` | nodes/helpers.go:123-141 | for every path and value, paths that part from the written one keep what they held |
| `NestedMaps.LongerPathsAfterSet` | nodes/helpers.go:123-141 | below the written path there is what the value holds |
| `NestedMaps.SplitJoin` | nodes/helpers.go:124 | splitting undoes joining for dot-free pieces |
| `NestedMaps.JoinSplit` | nodes/helpers.go:124 | joining undoes splitting |
| `NestedMaps.FlattenMap` | nodes/helpers.go:332-346 | every leaf and every map at the depth limit is filed under its key and every new entry is one of these, in any order |
| `NestedMaps.FlatIsDetermined` | nodes/helpers.go:332-346 | a restorable map flattens to exactly its leaves under their dotted paths, whatever the order |
| `NestedMaps.FlatsAgree` | nodes/helpers.go:332-346 | flattening a restorable map does not depend on iteration order |
| `NestedMaps.LeavesDetermine` | nodes/helpers.go:123-141 | maps without empty parts are determined by their leaves |
| `NestedMaps.Rebuild` | nodes/helpers.go:123-141 | setting all entries of a flat map, in any order, gives back the map it came from |
| `NestedMaps.RoundTrip` | nodes/helpers.go:332-346 | flattening and rebuilding gives the map back if and only if keys are dot-free, no inner map is empty and the empty top-level key holds no map |
| `Scheduling.WorkflowScheduler.Launch` | server/workflow_scheduler.go:75-109 | a poll loop is launched unless one is installed |
| `Scheduling.WorkflowScheduler.BeginStop` | server/workflow_scheduler.go:112-123 | the installed loop is taken out and its end awaited |
| `Scheduling.WorkflowScheduler.CancelLoop` | server/workflow_scheduler.go:125-128 | outside the lock the loop taken out is cancelled, unless it has ended; `CancelledLoopEnds` says what that is for |
| `Scheduling.WorkflowScheduler.EndStop` | server/workflow_scheduler.go:130-137 | Stop returns nil once its loop has ended |
| `Scheduling.WorkflowScheduler.CheckDue` | server/workflow_scheduler.go:158-166 | an active schedule is skipped, another is prepared |
| `Scheduling.WorkflowScheduler.MarkScheduleActive` | server/workflow_scheduler.go:264-268 | the prepared schedule becomes active |
| `Scheduling.WorkflowScheduler.SpawnRun` | server/workflow_scheduler.go:183-184 | the marked schedule's run starts |
| `Scheduling.WorkflowScheduler.UnmarkScheduleActive` | server/workflow_scheduler.go:270-274 | a run's deferred unmark removes its schedule from the active set |
| `Scheduling.RunsStayTracked` | server/workflow_scheduler.go:75-138 | every live loop is installed or awaits its Stop |
| `Scheduling.LoopsAreRecorded` | server/workflow_scheduler.go:75-138 | in every run a launched loop is alive until it exits, is cancelled exactly once a Cancel has named it, exits only then, and its Stop waits until it returns, once, after that exit |
| `Scheduling.EndsOnlyIfCancelled` | server/workflow_scheduler.go:92-106 | a loop ends only if a Cancel named it |
| `Scheduling.CancelledLoopEnds` | server/workflow_scheduler.go:112-138 | after every run in which a Cancel named a loop, at most two further steps of that loop alone end it, and then its Stop can return |
| `Scheduling.AtMostOneLoop` | server/workflow_scheduler.go:75-138 | as long as no Start launches a loop beside a live one, at most one poll loop is alive |
| `Scheduling.RunsDoNotOverlap` | server/workflow_scheduler.go:141-226 | then, in every interleaving, each schedule has at most one run in flight and is active exactly from its mark to its run's unmark |
| `Scheduling.LoopsOverlapIff` | server/workflow_scheduler.go:80-89 | two loops are alive at some point if and only if some Start launches one beside a loop that has not ended |
| `Scheduling.PatientIsApart` | server/workflow_scheduler.go:112-138 | callers that start only after every Stop has returned nil never launch a loop beside a live one |
| `Scheduling.TwoLoopsOverlap` | server/workflow_scheduler.go:158-184 | from every run with two live loops, and for every schedule not active then, two runs of that schedule can come in flight without another Start |
| `Scheduling.OverlapIffLaunchedBeside` | server/workflow_scheduler.go:75-226 | runs of one schedule can come to overlap from some point of a run, without a further Start, if and only if some Start launched a loop beside a live one |
| `Scheduling.Interleave` | server/workflow_scheduler.go:75-226 | the scheduler, under any interleaving of callers, loops and runs, is in the state of a legal run, loops end and Stops return as recorded, and without a launch beside a live loop no schedule has two runs in flight |

## Left out

- Parallel and hierarchical compilation strategies: the first sets no entry, the second always builds cycles.
- Template and expression rewriting, reference extraction and tool-reference trimming in the compiler: references and tool modes are given.
- Definitions.Validate: diagnostics are told apart by code and subject only; messages, paths, the schema-header rules and the conditional-node rules are taken as given lists whose codes are their own.
- AgentCompiler.CompileTaskTools: node configuration is not modelled, and so neither are the function-call tools, which only go into it.
- AgentCompiler.CompileTaskBody: node configuration is not modelled.
- AgentCompiler.CompileTaskNode: node configuration is not modelled.
- AgentCompiler.AppendHumanReview: node configuration is not modelled.
- AgentCompiler.WireCondition: node configuration, that is the condition expression, is not modelled.
- SequentialRuntime.Run: a node emits only its own output events; envelopes carry variables and recorded errors, not artifacts, messages, trace or input.
- Parallel engine: runs are error-free or end at the first error, and are not cancelled.
- ParallelEngine.Engine.ReceiveResult: the error result of a failing node is not modelled.
- ParallelEngine.Engine.ScheduleMerge: a failing merge is not modelled, and a merge node always has a merge strategy.
- ParallelEngine.Engine.Return: recorded errors are not modelled.
- ParallelConfluence.ScheduleDoesNotMatter: for the JSON merge strategy and for nodes that add no errors of their own, since merged errors are listed in arrival order.
- ParallelCompletion.NarrowGraphsComplete: one way only, as a condition on the graph; the exact condition, over runs, is `ParallelRuntime.SomeRunJamsIff`.
- ParallelEndless.EndlessIffMergeCycle: for merges that are ready after one input; for others the exact condition, over runs that cannot jam, is `ParallelFeeding.EndlessIffCycleFilled`. With nodes that cannot choose a single successor only one way is proved, `ParallelFeeding.EndlessFillsACycle`.
- Merging.MergeVars: merges on values; that nested destination maps are shared and written in place is not captured.
- Merge strategies other than the JSON one, and its `vars_only` option.
- Sequence numbers are unbounded; 64-bit wrap-around is not modelled.
- EventStreams.StreamIsComplete: for streams that dropped nothing and were not cut off; heartbeats are not modelled. The store's List is taken at its documented contract: events above the cursor in ascending order.
- Global subscribers of the bus as stream sources; the SQLite store; HTTP details.
- MapNodes.PoolRefinesSequential: for a pure mapper and an uncancelled parent context; a cancelled parent can yield partial results without an error.
- NestedMaps.RoundTrip: for flattening without a depth limit.
- NestedMaps.Rebuild: setNestedValue writes nested Go maps in place; the model works on values, so sharing between nested maps is not captured.
- Deleting nested values and the in-place deep merge helper.
- Scheduling.RunsDoNotOverlap: the store's records, cron expressions and the order of due schedules are left open; RunOnce is called by the loop only.
- Retry, caching, guardian checks, tool registry, command line, server handlers and telemetry: mostly one-branch facts around foreign calls.
