/**
 The parallel engine as interleaved steps: a coordinator and a pool of identical workers joined by two
 bounded channels. Fail-fast or error-free runs without cancellation; what a node answers is any
 envelope the configuration allows.
 */
module ParallelRuntime {
  import opened Sequences
  import opened Kahn
  import opened Graphs
  import opened Envelopes

  /** A unit of work or of result: a node with the envelope it runs on or produced. */
  datatype Item = Item(node: string, env: Envelope)

  datatype Config = Config(
    g: Graph,
    concurrency: nat,
    maxHops: nat,
    start: Envelope,
    allowed: (string, Envelope, Envelope) -> bool,
    merge: (string, seq<Envelope>) -> Envelope)
  {
    function Capacity(): nat {
      2 * concurrency
    }

    /** The engine is entered with more than one worker, a validated graph and a positive hop limit. */
    ghost predicate Valid() {
      && g.WellFormed()
      && g.entry in g.nodes
      && concurrency > 1
      && maxHops >= 1
    }
  }

  /** The coordinator waits for a result, schedules the successors of one, or has returned. */
  datatype Coordinator =
    | Waiting
    | Scheduling(source: string, env: Envelope, remaining: seq<string>, added: nat)
    | Stopped

  /**
   `busy` holds one item per working worker. The last five fields are history: every node handed to
   the workers, every node a worker picked up, every node whose result was processed, the latest
   processed result of each node, and which predecessors fed each merge.
   */
  datatype State = State(
    workCh: seq<Item>,
    busy: seq<Item>,
    resultCh: seq<Item>,
    coordinator: Coordinator,
    pending: nat,
    hops: map<string, nat>,
    mergeInputs: map<string, seq<Envelope>>,
    final: Option<Envelope>,
    scheduled: seq<string>,
    started: seq<string>,
    processed: seq<string>,
    outputs: map<string, Envelope>,
    mergeSources: map<string, seq<string>>)

  datatype Action =
    | Take
    | Put(worker: nat, out: Envelope)
    | Receive
    | Schedule
    | Settle
    | Stop

  function Init(c: Config): State {
    State([Item(c.g.entry, c.start)], [], [], Waiting, 1, map[], map[], None, [c.g.entry], [], [], map[], map[])
  }

  function HopsOf(s: State, id: string): nat {
    if id in s.hops then s.hops[id] else 0
  }

  function ExpectedInputs(c: Config, id: string): nat
    requires id in c.g.nodes && c.g.nodes[id].kind.Merge?
  {
    if c.g.nodes[id].kind.expectedInputs == 0 then |c.g.Predecessors(id)| else c.g.nodes[id].kind.expectedInputs
  }

  function IsMerge(c: Config, id: string): bool {
    id in c.g.nodes && c.g.nodes[id].kind.Merge?
  }

  /** The next successor leads to a push: a merge that becomes ready, or another node with hops left. */
  predicate Pushes(c: Config, s: State)
    requires s.coordinator.Scheduling? && s.coordinator.remaining != []
  {
    var id := s.coordinator.remaining[0];
    && id in c.g.nodes
    && if c.g.nodes[id].kind.Merge? then |Lookup(s.mergeInputs, id)| + 1 >= ExpectedInputs(c, id)
       else HopsOf(s, id) < c.maxHops
  }

  predicate Enabled(c: Config, s: State, a: Action) {
    match a
    case Take => s.workCh != [] && |s.busy| < c.concurrency
    case Put(worker, out) =>
      worker < |s.busy| && |s.resultCh| < c.Capacity() && c.allowed(s.busy[worker].node, s.busy[worker].env, out)
    case Receive => s.coordinator.Waiting? && s.pending > 0 && s.resultCh != []
    case Schedule =>
      s.coordinator.Scheduling? && s.coordinator.remaining != [] && (Pushes(c, s) ==> |s.workCh| < c.Capacity())
    case Settle => s.coordinator.Scheduling? && s.coordinator.remaining == []
    case Stop => s.coordinator.Waiting? && s.pending == 0
  }

  function DoTake(s: State): State
    requires s.workCh != []
  {
    s.(workCh := s.workCh[1..], busy := s.busy + [s.workCh[0]], started := s.started + [s.workCh[0].node])
  }

  function DoPut(s: State, worker: nat, out: Envelope): State
    requires worker < |s.busy|
  {
    s.(busy := Without(s.busy, worker), resultCh := s.resultCh + [Item(s.busy[worker].node, out)])
  }

  function RouteOf(c: Config, item: Item): Routing {
    if item.node in c.g.nodes then Route(c.g, c.g.nodes[item.node], item.env) else Routing([], item.env, None)
  }

  function DoReceive(c: Config, s: State): State
    requires s.pending > 0 && s.resultCh != []
  {
    var item := s.resultCh[0];
    var r := RouteOf(c, item);
    s.(resultCh := s.resultCh[1..],
       pending := s.pending - 1,
       hops := s.hops[item.node := HopsOf(s, item.node) + 1],
       coordinator := Scheduling(item.node, r.env, r.targets, 0),
       processed := s.processed + [item.node],
       outputs := s.outputs[item.node := r.env])
  }

  /** A push onto the work channel, counted by the coordinator. */
  function Push(s: State, item: Item, rest: seq<string>): State
    requires s.coordinator.Scheduling?
  {
    s.(workCh := s.workCh + [item],
       scheduled := s.scheduled + [item.node],
       coordinator := s.coordinator.(remaining := rest, added := s.coordinator.added + 1))
  }

  /** A merge node: its input list grows; once long enough it is merged, its hops are reset and it is pushed. */
  function DoScheduleMerge(c: Config, s: State): State
    requires s.coordinator.Scheduling? && s.coordinator.remaining != []
    requires IsMerge(c, s.coordinator.remaining[0])
  {
    var id, rest := s.coordinator.remaining[0], s.coordinator.remaining[1..];
    var inputs := Lookup(s.mergeInputs, id) + [s.coordinator.env];
    var sources := Lookup(s.mergeSources, id) + [s.coordinator.source];
    var s1 := s.(mergeInputs := s.mergeInputs[id := inputs], mergeSources := s.mergeSources[id := sources]);
    if |inputs| < ExpectedInputs(c, id) then s1.(coordinator := s.coordinator.(remaining := rest))
    else Push(s1.(hops := s.hops[id := 0]), Item(id, c.merge(id, inputs)), rest)
  }

  function DoSchedule(c: Config, s: State): State
    requires s.coordinator.Scheduling? && s.coordinator.remaining != []
  {
    var id, rest := s.coordinator.remaining[0], s.coordinator.remaining[1..];
    if id !in c.g.nodes then s.(coordinator := s.coordinator.(remaining := rest))
    else if c.g.nodes[id].kind.Merge? then DoScheduleMerge(c, s)
    else if HopsOf(s, id) < c.maxHops then Push(s, Item(id, s.coordinator.env), rest)
    else s.(coordinator := s.coordinator.(remaining := rest))
  }

  function DoSettle(s: State): State
    requires s.coordinator.Scheduling?
  {
    s.(pending := s.pending + s.coordinator.added, final := Some(s.coordinator.env), coordinator := Waiting)
  }

  function Do(c: Config, s: State, a: Action): State
    requires Enabled(c, s, a)
  {
    match a
    case Take => DoTake(s)
    case Put(worker, out) => DoPut(s, worker, out)
    case Receive => DoReceive(c, s)
    case Schedule => DoSchedule(c, s)
    case Settle => DoSettle(s)
    case Stop => s.(coordinator := Stopped)
  }

  // ----- runs

  /** Where a sequence of actions leads, if each is enabled in the state the earlier ones lead to. */
  ghost function Play(c: Config, s: State, actions: seq<Action>): Option<State> {
    if actions == [] then Some(s)
    else
      var before := Play(c, s, actions[..|actions| - 1]);
      if before.Some? && Enabled(c, before.value, actions[|actions| - 1])
      then Some(Do(c, before.value, actions[|actions| - 1])) else None
  }

  /** A run of the engine: any interleaving of coordinator and worker actions. */
  ghost predicate Legal(c: Config, actions: seq<Action>) {
    Play(c, Init(c), actions).Some?
  }

  ghost function After(c: Config, actions: seq<Action>): State
    requires Legal(c, actions)
  {
    Play(c, Init(c), actions).value
  }

  lemma PlayStep(c: Config, s: State, actions: seq<Action>, a: Action)
    requires Play(c, s, actions).Some? && Enabled(c, Play(c, s, actions).value, a)
    ensures Play(c, s, actions + [a]) == Some(Do(c, Play(c, s, actions).value, a))
  {
    TakeOfAppend(actions, a, 0);
  }

  function NodesOf(items: seq<Item>): (nodes: seq<string>)
    ensures |nodes| == |items|
  {
    seq(|items|, i requires 0 <= i < |items| => items[i].node)
  }

  // ----- channel accounting

  ghost function Added(s: State): nat {
    if s.coordinator.Scheduling? then s.coordinator.added else 0
  }

  ghost function Outstanding(s: State): nat {
    |s.workCh| + |s.busy| + |s.resultCh|
  }

  /** Channels and pool within bounds; the pending counter and the items added so far count what is outstanding. */
  ghost predicate Balanced(c: Config, s: State) {
    && |s.workCh| <= c.Capacity()
    && |s.busy| <= c.concurrency
    && |s.resultCh| <= c.Capacity()
    && s.pending + Added(s) == Outstanding(s)
    && (s.coordinator.Stopped? ==> s.pending == 0)
  }

  lemma BalancedSchedule(c: Config, s: State)
    requires Balanced(c, s) && Enabled(c, s, Schedule)
    ensures Balanced(c, DoSchedule(c, s))
  {
    ScheduleShape(c, s);
    hide DoSchedule, Pushes;
  }

  /** The item and counter changes of handling one successor. */
  ghost predicate AddsAtMostOne(s: State, s': State, pushed: bool)
    requires s.coordinator.Scheduling?
  {
    && s'.busy == s.busy && s'.resultCh == s.resultCh && s'.pending == s.pending
    && s'.coordinator.Scheduling?
    && |s'.workCh| == |s.workCh| + (if pushed then 1 else 0)
    && s'.coordinator.added == s.coordinator.added + (if pushed then 1 else 0)
  }

  lemma MergeShape(c: Config, s: State)
    requires s.coordinator.Scheduling? && s.coordinator.remaining != [] && IsMerge(c, s.coordinator.remaining[0])
    ensures AddsAtMostOne(s, DoScheduleMerge(c, s), Pushes(c, s))
  {
    hide ExpectedInputs;
  }

  lemma ScheduleShape(c: Config, s: State)
    requires s.coordinator.Scheduling? && s.coordinator.remaining != []
    ensures AddsAtMostOne(s, DoSchedule(c, s), Pushes(c, s))
  {
    if IsMerge(c, s.coordinator.remaining[0]) {
      MergeShape(c, s);
    }
    hide HopsOf, DoScheduleMerge;
  }

  lemma BalancedStep(c: Config, s: State, a: Action)
    requires Balanced(c, s) && Enabled(c, s, a)
    ensures Balanced(c, Do(c, s, a))
  {
    hide RouteOf, HopsOf, DoSchedule, Pushes;
    if a.Schedule? {
      BalancedSchedule(c, s);
    }
  }

  /** The counter is exact in every reachable state. */
  lemma {:induction false} RunsStayBalanced(c: Config, actions: seq<Action>)
    requires c.Valid() && Legal(c, actions)
    ensures Balanced(c, After(c, actions))
  {
    if actions != [] {
      RunsStayBalanced(c, actions[..|actions| - 1]);
      BalancedStep(c, After(c, actions[..|actions| - 1]), actions[|actions| - 1]);
    }
  }

  ghost predicate CanAnswer(c: Config, id: string, env: Envelope) {
    exists out :: c.allowed(id, env, out)
  }

  /** Nodes answer, whatever they are given. */
  ghost predicate Responsive(c: Config) {
    forall id, env :: CanAnswer(c, id, env)
  }

  predicate IsWorkerStep(a: Action) {
    a.Take? || a.Put?
  }

  /** No step is possible. */
  ghost predicate Stuck(c: Config, s: State) {
    forall a :: !Enabled(c, s, a)
  }

  ghost predicate WantsToPush(c: Config, s: State) {
    s.coordinator.Scheduling? && s.coordinator.remaining != [] && Pushes(c, s)
  }

  /** Both channels and the pool are full while the coordinator has something to push. */
  ghost predicate Jammed(c: Config, s: State) {
    && WantsToPush(c, s)
    && |s.workCh| == c.Capacity() && |s.busy| == c.concurrency && |s.resultCh| == c.Capacity()
  }

  /** Work waits for an idle worker, or a result fits. */
  ghost predicate WorkersCanMove(c: Config, s: State) {
    || (s.workCh != [] && |s.busy| < c.concurrency)
    || (s.busy != [] && |s.resultCh| < c.Capacity())
  }

  ghost predicate SomeWorkerStep(c: Config, s: State) {
    exists a :: IsWorkerStep(a) && Enabled(c, s, a)
  }

  lemma WorkerProgress(c: Config, s: State)
    requires Responsive(c)
    ensures SomeWorkerStep(c, s) <==> WorkersCanMove(c, s)
  {
    if s.workCh != [] && |s.busy| < c.concurrency {
      assert Enabled(c, s, Take);
    } else if s.busy != [] && |s.resultCh| < c.Capacity() {
      assert CanAnswer(c, s.busy[0].node, s.busy[0].env);
      var out :| c.allowed(s.busy[0].node, s.busy[0].env, out);
      assert Enabled(c, s, Put(0, out));
    }
  }

  /**
   Exact deadlock condition: a balanced state admits no step precisely when the engine has returned or
   the coordinator wants to push while all 5 * concurrency places are taken.
   */
  lemma StuckMeansJammed(c: Config, s: State)
    requires c.concurrency > 1 && Responsive(c) && Balanced(c, s)
    ensures Stuck(c, s) <==> s.coordinator.Stopped? || Jammed(c, s)
    ensures s.coordinator.Stopped? ==> Outstanding(s) == 0
    ensures Jammed(c, s) ==> Outstanding(s) == 5 * c.concurrency
  {
    WorkerProgress(c, s);
    hide Pushes;
    if Stuck(c, s) {
      assert !Enabled(c, s, Receive) && !Enabled(c, s, Schedule) && !Enabled(c, s, Settle) && !Enabled(c, s, Stop);
    } else {
      var a :| Enabled(c, s, a);
      if IsWorkerStep(a) {
        assert SomeWorkerStep(c, s);
      }
    }
  }

  /** The deadlock condition in every reachable state. */
  lemma ReachableStuckMeansJammed(c: Config, actions: seq<Action>)
    requires c.Valid() && Responsive(c) && Legal(c, actions)
    ensures Stuck(c, After(c, actions)) <==> After(c, actions).coordinator.Stopped? || Jammed(c, After(c, actions))
  {
    hide Stuck, Jammed, Responsive, Balanced;
    RunsStayBalanced(c, actions);
    StuckMeansJammed(c, After(c, actions));
  }

  ghost function WorkerEffort(s: State): nat {
    2 * |s.workCh| + |s.busy|
  }

  /** Worker steps use up a bounded effort and leave the coordinator's position alone. */
  lemma WorkerStepsEnd(c: Config, s: State, a: Action)
    requires Enabled(c, s, a) && IsWorkerStep(a)
    ensures WorkerEffort(Do(c, s, a)) == WorkerEffort(s) - 1
    ensures Do(c, s, a).coordinator == s.coordinator && Outstanding(Do(c, s, a)) == Outstanding(s)
    ensures Do(c, s, a).hops == s.hops && Do(c, s, a).mergeInputs == s.mergeInputs
  {
  }

  /** A blocked push with room for one more item somewhere: some worker can move. */
  lemma BlockedPushHasWorkerStep(c: Config, s: State)
    requires c.concurrency > 1 && Responsive(c) && Balanced(c, s)
    requires WantsToPush(c, s) && !Enabled(c, s, Schedule)
    requires Outstanding(s) + 1 <= 5 * c.concurrency
    ensures SomeWorkerStep(c, s)
  {
    hide Pushes;
    WorkerProgress(c, s);
  }

  ghost predicate WorkersOnly(actions: seq<Action>) {
    forall i :: 0 <= i < |actions| ==> IsWorkerStep(actions[i])
  }

  /**
   A push completes while at most 5 * concurrency items are outstanding after it: whatever the workers
   do meanwhile, they take at most WorkerEffort steps, and as long as the push is still blocked one of
   them can take another.
   */
  lemma PushCompletes(c: Config, s: State, steps: seq<Action>)
    requires c.concurrency > 1 && Responsive(c) && Balanced(c, s)
    requires WantsToPush(c, s) && Outstanding(s) + 1 <= 5 * c.concurrency
    requires WorkersOnly(steps) && Play(c, s, steps).Some?
    ensures |steps| <= WorkerEffort(s)
    ensures Enabled(c, Play(c, s, steps).value, Schedule) || SomeWorkerStep(c, Play(c, s, steps).value)
  {
    hide Responsive, Balanced, SomeWorkerStep, Enabled;
    WorkersKeepPush(c, s, steps);
    var s' := Play(c, s, steps).value;
    if !Enabled(c, s', Schedule) {
      BlockedPushHasWorkerStep(c, s');
    }
  }

  lemma {:induction false} WorkersKeepPush(c: Config, s: State, steps: seq<Action>)
    requires Balanced(c, s) && WorkersOnly(steps) && Play(c, s, steps).Some?
    ensures Balanced(c, Play(c, s, steps).value)
    ensures WantsToPush(c, s) ==> WantsToPush(c, Play(c, s, steps).value)
    ensures Play(c, s, steps).value.coordinator == s.coordinator
    ensures Outstanding(Play(c, s, steps).value) == Outstanding(s)
    ensures WorkerEffort(Play(c, s, steps).value) + |steps| == WorkerEffort(s)
  {
    if steps != [] {
      var front, a := steps[..|steps| - 1], steps[|steps| - 1];
      WorkersKeepPush(c, s, front);
      var s' := Play(c, s, front).value;
      hide Balanced;
      BalancedStep(c, s', a);
      WorkerStepsEnd(c, s', a);
    }
  }

  // ----- when scheduling a result can jam

  lemma MovesOn(c: Config, s: State)
    requires s.coordinator.Scheduling? && s.coordinator.remaining != []
    ensures DoSchedule(c, s).coordinator.Scheduling?
    ensures DoSchedule(c, s).coordinator.remaining == s.coordinator.remaining[1..]
  {
    if IsMerge(c, s.coordinator.remaining[0]) {
      MergePlan(c, s);
    }
    hide HopsOf, DoScheduleMerge, Ready;
  }

  /** How many items the coordinator has still to push for the result it is scheduling. */
  ghost function Wanted(c: Config, s: State): nat
    requires s.coordinator.Scheduling?
    decreases |s.coordinator.remaining|
  {
    if s.coordinator.remaining == [] then 0
    else
      MovesOn(c, s);
      (if Pushes(c, s) then 1 else 0) + Wanted(c, DoSchedule(c, s))
  }

  /** What the coordinator wants does not depend on the channels and the pool. */
  lemma {:induction false} WantedSame(c: Config, s: State, t: State)
    requires s.coordinator.Scheduling? && SamePlan(s, t)
    ensures Wanted(c, t) == Wanted(c, s)
    decreases |s.coordinator.remaining|
  {
    if s.coordinator.remaining != [] {
      ScheduleSame(c, s, t);
      MovesOn(c, s);
      WantedSame(c, DoSchedule(c, s), DoSchedule(c, t));
    }
  }

  /** The parts of the state that decide what the coordinator pushes. */
  ghost predicate SamePlan(s: State, t: State) {
    t.coordinator == s.coordinator && t.hops == s.hops && t.mergeInputs == s.mergeInputs
  }

  lemma ScheduleSame(c: Config, s: State, t: State)
    requires SamePlan(s, t) && s.coordinator.Scheduling? && s.coordinator.remaining != []
    ensures Pushes(c, t) == Pushes(c, s) && SamePlan(DoSchedule(c, s), DoSchedule(c, t))
  {
    if IsMerge(c, s.coordinator.remaining[0]) {
      MergeSame(c, s, t);
    }
    hide HopsOf, DoScheduleMerge;
  }

  lemma MergeSame(c: Config, s: State, t: State)
    requires SamePlan(s, t) && s.coordinator.Scheduling? && s.coordinator.remaining != []
    requires IsMerge(c, s.coordinator.remaining[0])
    ensures SamePlan(DoScheduleMerge(c, s), DoScheduleMerge(c, t))
  {
    MergePlan(c, s);
    MergePlan(c, t);
    hide DoScheduleMerge, Ready, IsMerge;
  }

  predicate Ready(c: Config, id: string, inputs: seq<Envelope>)
    requires IsMerge(c, id)
  {
    |inputs| >= ExpectedInputs(c, id)
  }

  lemma MergePlan(c: Config, s: State)
    requires s.coordinator.Scheduling? && s.coordinator.remaining != [] && IsMerge(c, s.coordinator.remaining[0])
    ensures var id := s.coordinator.remaining[0];
            var inputs := Lookup(s.mergeInputs, id) + [s.coordinator.env];
            var s' := DoScheduleMerge(c, s);
            && s'.mergeInputs == s.mergeInputs[id := inputs]
            && s'.hops == (if Ready(c, id, inputs) then s.hops[id := 0] else s.hops)
            && s'.coordinator == s.coordinator.(remaining := s.coordinator.remaining[1..],
                                                added := s.coordinator.added + if Ready(c, id, inputs) then 1 else 0)
  {
    hide ExpectedInputs;
  }

  predicate IsSchedulingStep(a: Action) {
    IsWorkerStep(a) || a.Schedule?
  }

  ghost predicate SchedulingOnly(steps: seq<Action>) {
    forall i :: 0 <= i < |steps| ==> IsSchedulingStep(steps[i])
  }

  /** Scheduling a result: what is outstanding and what is still to be pushed add up to `total`. */
  ghost predicate Headed(c: Config, s: State, total: nat) {
    Balanced(c, s) && s.coordinator.Scheduling? && Wanted(c, s) + Outstanding(s) == total
  }

  lemma HeadedStep(c: Config, s: State, a: Action, total: nat)
    requires Headed(c, s, total) && IsSchedulingStep(a) && Enabled(c, s, a)
    ensures Headed(c, Do(c, s, a), total)
    ensures a.Schedule? ==> |Do(c, s, a).coordinator.remaining| < |s.coordinator.remaining|
    ensures !a.Schedule? ==> Do(c, s, a).coordinator == s.coordinator && WorkerEffort(Do(c, s, a)) < WorkerEffort(s)
  {
    BalancedStep(c, s, a);
    hide Balanced, DoSchedule, Pushes;
    if a.Schedule? {
      ScheduleShape(c, s);
      MovesOn(c, s);
    } else {
      WorkerStepsEnd(c, s, a);
      WantedSame(c, s, Do(c, s, a));
    }
  }

  lemma {:induction false} HeadedSteps(c: Config, s: State, steps: seq<Action>, total: nat)
    requires Headed(c, s, total) && SchedulingOnly(steps) && Play(c, s, steps).Some?
    ensures Headed(c, Play(c, s, steps).value, total)
  {
    hide Headed;
    if steps != [] {
      var front := steps[..|steps| - 1];
      HeadedSteps(c, s, front, total);
      HeadedStep(c, Play(c, s, front).value, steps[|steps| - 1], total);
    }
  }

  /** With more to come than there are places, some step is open until the engine is jammed. */
  lemma NextTowardsJam(c: Config, s: State, total: nat) returns (a: Action)
    requires Responsive(c) && Headed(c, s, total) && total > 5 * c.concurrency && !Jammed(c, s)
    ensures IsSchedulingStep(a) && Enabled(c, s, a)
  {
    WorkerProgress(c, s);
    hide Pushes, Responsive;
    if SomeWorkerStep(c, s) {
      a :| IsWorkerStep(a) && Enabled(c, s, a);
    } else {
      assert s.coordinator.remaining != [];
      a := Schedule;
    }
  }

  lemma FillUp(c: Config, s: State, total: nat) returns (steps: seq<Action>)
    requires Responsive(c) && Headed(c, s, total) && total > 5 * c.concurrency
    ensures SchedulingOnly(steps) && Play(c, s, steps).Some? && Jammed(c, Play(c, s, steps).value)
  {
    hide Responsive, Headed, Jammed, Enabled, Do;
    steps := [];
    while !Jammed(c, Play(c, s, steps).value)
      invariant SchedulingOnly(steps) && Play(c, s, steps).Some?
      invariant Headed(c, Play(c, s, steps).value, total)
      decreases RemainingOf(Play(c, s, steps).value), WorkerEffort(Play(c, s, steps).value)
    {
      var t := Play(c, s, steps).value;
      var a := NextTowardsJam(c, t, total);
      HeadedMeasure(c, t, a, total);
      PlayStep(c, s, steps, a);
      steps := steps + [a];
    }
  }

  ghost function RemainingOf(s: State): nat {
    if s.coordinator.Scheduling? then |s.coordinator.remaining| else 0
  }

  lemma HeadedMeasure(c: Config, s: State, a: Action, total: nat)
    requires Headed(c, s, total) && IsSchedulingStep(a) && Enabled(c, s, a)
    ensures Headed(c, Do(c, s, a), total)
    ensures RemainingOf(Do(c, s, a)) <= RemainingOf(s)
    ensures RemainingOf(Do(c, s, a)) == RemainingOf(s) ==> WorkerEffort(Do(c, s, a)) < WorkerEffort(s)
  {
    HeadedStep(c, s, a, total);
    hide Wanted, Balanced;
  }

  /**
   Exactly when scheduling a result can jam: some interleaving of the coordinator's pushes and the
   workers ends jammed if and only if the items outstanding and those still to be pushed outnumber the
   5 * concurrency places.
   */
  lemma JamsIff(c: Config, s: State)
    requires Responsive(c) && Balanced(c, s) && s.coordinator.Scheduling?
    ensures (exists steps :: SchedulingOnly(steps) && Play(c, s, steps).Some? && Jammed(c, Play(c, s, steps).value))
            <==> Wanted(c, s) + Outstanding(s) > 5 * c.concurrency
  {
    var total := Wanted(c, s) + Outstanding(s);
    if total > 5 * c.concurrency {
      var steps := FillUp(c, s, total);
    } else {
      forall steps | SchedulingOnly(steps) && Play(c, s, steps).Some?
        ensures !Jammed(c, Play(c, s, steps).value)
      {
        HeadedSteps(c, s, steps, total);
        JammedIsOverfull(c, Play(c, s, steps).value, total);
      }
    }
  }

  lemma JammedIsOverfull(c: Config, s: State, total: nat)
    requires Headed(c, s, total)
    ensures Jammed(c, s) ==> total > 5 * c.concurrency
  {
  }

  lemma {:induction false} PlayAppend(c: Config, s: State, first: seq<Action>, next: seq<Action>)
    requires Play(c, s, first).Some?
    ensures Play(c, s, first + next) == Play(c, Play(c, s, first).value, next)
  {
    if next == [] {
      assert first + next == first;
    } else {
      PlayAppend(c, s, first, next[..|next| - 1]);
      assert (first + next)[..|first + next| - 1] == first + next[..|next| - 1];
    }
  }

  /** Some run of the engine jams if and only if some run schedules a result with more to come than places. */
  lemma SomeRunJamsIff(c: Config)
    requires c.Valid() && Responsive(c)
    ensures SomeRunJams(c) <==> SomeRunOverfills(c)
  {
    hide Jammed, Overfull, Responsive, Legal;
    if SomeRunJams(c) {
      var actions :| Legal(c, actions) && Jammed(c, After(c, actions));
      RunsStayBalanced(c, actions);
      JammedMeansOverfull(c, After(c, actions));
    }
    if SomeRunOverfills(c) {
      var actions :| Legal(c, actions) && Overfull(c, After(c, actions));
      var longer := OverfullRunJams(c, actions);
    }
  }

  ghost predicate SomeRunJams(c: Config) {
    exists actions :: Legal(c, actions) && Jammed(c, After(c, actions))
  }

  ghost predicate SomeRunOverfills(c: Config) {
    exists actions :: Legal(c, actions) && Overfull(c, After(c, actions))
  }

  lemma OverfullRunJams(c: Config, actions: seq<Action>) returns (longer: seq<Action>)
    requires c.Valid() && Responsive(c) && Legal(c, actions) && Overfull(c, After(c, actions))
    ensures Legal(c, longer) && Jammed(c, After(c, longer))
  {
    var s := After(c, actions);
    RunsStayBalanced(c, actions);
    JamsIff(c, s);
    hide Balanced, Wanted, Jammed, Responsive;
    var steps :| SchedulingOnly(steps) && Play(c, s, steps).Some? && Jammed(c, Play(c, s, steps).value);
    PlayAppend(c, Init(c), actions, steps);
    longer := actions + steps;
  }

  ghost predicate Overfull(c: Config, s: State) {
    s.coordinator.Scheduling? && Wanted(c, s) + Outstanding(s) > 5 * c.concurrency
  }

  lemma JammedMeansOverfull(c: Config, s: State)
    requires Balanced(c, s) && Jammed(c, s)
    ensures Overfull(c, s)
  {
    JammedIsOverfull(c, s, Wanted(c, s) + Outstanding(s));
  }

  // ----- a fan-out that jams

  /** The entry fans out to ordinary nodes other than itself. */
  ghost predicate PlainFan(c: Config) {
    forall id :: id in c.g.Successors(c.g.entry) ==> id in c.g.nodes && id != c.g.entry && !c.g.nodes[id].kind.Merge?
  }

  /** Ordinary successors with hops left are all pushed. */
  lemma {:induction false} OrdinaryAreWanted(c: Config, s: State)
    requires s.coordinator.Scheduling?
    requires forall id :: id in s.coordinator.remaining ==>
               id in c.g.nodes && !c.g.nodes[id].kind.Merge? && HopsOf(s, id) < c.maxHops
    ensures Wanted(c, s) == |s.coordinator.remaining|
    decreases |s.coordinator.remaining|
  {
    if s.coordinator.remaining != [] {
      assert s.coordinator.remaining[0] in s.coordinator.remaining;
      MovesOn(c, s);
      OrdinaryAreWanted(c, DoSchedule(c, s));
    }
  }

  /** The entry runs alone and its result is received. */
  lemma FanStart(c: Config, out: Envelope) returns (actions: seq<Action>)
    requires c.Valid() && !c.g.nodes[c.g.entry].kind.Router?
    requires c.allowed(c.g.entry, c.start, out) && Unrouted(out)
    ensures Legal(c, actions)
    ensures After(c, actions).coordinator == Scheduling(c.g.entry, out, c.g.Successors(c.g.entry), 0)
    ensures After(c, actions).hops == map[c.g.entry := 1]
  {
    var s0 := Init(c);
    var s1 := Do(c, s0, Take);
    var s2 := Do(c, s1, Put(0, out));
    UnroutedFollowsAll(c.g, c.g.nodes[c.g.entry], out);
    PlayStep(c, s0, [], Take);
    PlayStep(c, s0, [] + [Take], Put(0, out));
    PlayStep(c, s0, [] + [Take] + [Put(0, out)], Receive);
    actions := [] + [Take] + [Put(0, out)] + [Receive];
  }

  /** A fan-out of 5 * concurrency + 1 ordinary successors has an interleaving that ends jammed. */
  lemma WideFanOutJams(c: Config, out: Envelope) returns (actions: seq<Action>)
    requires c.Valid() && Responsive(c) && PlainFan(c) && !c.g.nodes[c.g.entry].kind.Router?
    requires |c.g.Successors(c.g.entry)| >= 5 * c.concurrency + 1
    requires c.allowed(c.g.entry, c.start, out) && Unrouted(out)
    ensures Legal(c, actions) && Jammed(c, After(c, actions)) && Stuck(c, After(c, actions))
  {
    hide Responsive, Targets, Jammed, Stuck, Graph.WellFormed, Wanted;
    var received := FanStart(c, out);
    OrdinaryAreWanted(c, After(c, received));
    actions := OverfullRunJams(c, received);
    ReachableStuckMeansJammed(c, actions);
  }
}
