/** Cycles made of merge nodes only: the one way a run of the parallel engine can go on for ever. */
module ParallelEndless {
  import opened Sequences
  import opened Digraphs
  import opened Kahn
  import opened Envelopes
  import opened ParallelRuntime
  import opened ParallelTermination

  /** A merge that is ready as soon as it has one input. */
  ghost predicate Eager(c: Config, id: string) {
    IsMerge(c, id) && ExpectedInputs(c, id) <= 1
  }

  /** The node can answer so that exactly the given successor follows. */
  ghost predicate CanSteer(c: Config, id: string, env: Envelope, target: string)
    requires id in c.g.nodes
  {
    exists out :: c.allowed(id, env, out) && Route(c.g, c.g.nodes[id], out).targets == [target]
  }

  /** Nodes may choose among their successors: by a redirect, a decision, or having only one. */
  ghost predicate MaySteer(c: Config) {
    forall id, env, target :: id in c.g.nodes && target in c.g.Successors(id) ==> CanSteer(c, id, env, target)
  }

  /** Nodes that may answer anything can steer, as a redirect to any named successor is followed. */
  lemma FreeNodesMaySteer(c: Config)
    requires c.g.WellFormed() && "" !in c.g.nodes && forall id, env, out :: c.allowed(id, env, out)
    ensures MaySteer(c)
  {
    forall id, env, target | id in c.g.nodes && target in c.g.Successors(id)
      ensures CanSteer(c, id, env, target)
    {
      TargetsMembership(c.g.edges, id, target);
      var out := Envelope(map[GATE_REDIRECT := Text(target)], []);
      assert c.g.nodes[id].id == id;
      assert Route(c.g, c.g.nodes[id], out).targets == [target];
    }
  }

  // ----- following an endless walk

  /** The node is a merge that is ready at once, or an ordinary node the walk has not passed before. */
  ghost predicate Passable(c: Config, walk: nat -> string, i: nat) {
    || Eager(c, walk(i))
    || (walk(i) in c.g.nodes && !IsMerge(c, walk(i)) && !Visited(walk, i, walk(i)))
  }

  ghost predicate Visited(walk: nat -> string, bound: nat, id: string) {
    exists j: nat :: j < bound && walk(j) == id
  }

  ghost predicate StepsOn(c: Config, walk: nat -> string, i: nat) {
    walk(i) in c.g.nodes && walk(i + 1) in c.g.Successors(walk(i)) && Passable(c, walk, i + 1)
  }

  ghost predicate Walkable(c: Config, walk: nat -> string) {
    walk(0) == c.g.entry && forall i: nat :: StepsOn(c, walk, i)
  }

  /** Only nodes the walk has passed have hops. */
  ghost predicate HopsWithin(s: State, walk: nat -> string, bound: nat) {
    forall id :: id in s.hops && s.hops[id] > 0 ==> Visited(walk, bound, id)
  }

  ghost predicate Lone(items: seq<Item>, id: string) {
    |items| == 1 && items[0].node == id
  }

  /** The only item in flight is the walk's i-th node, in one of the five phases of its round. */
  ghost predicate OnTheWay(c: Config, s: State, walk: nat -> string, i: nat, phase: nat) {
    match phase
    case 0 => s.coordinator.Waiting? && s.pending == 1 && Lone(s.workCh, walk(i)) && s.busy == [] && s.resultCh == []
              && HopsWithin(s, walk, i)
    case 1 => s.coordinator.Waiting? && s.pending == 1 && s.workCh == [] && Lone(s.busy, walk(i)) && s.resultCh == []
              && HopsWithin(s, walk, i)
    case 2 => s.coordinator.Waiting? && s.pending == 1 && s.workCh == [] && s.busy == [] && Lone(s.resultCh, walk(i))
              && RouteOf(c, s.resultCh[0]).targets == [walk(i + 1)] && HopsWithin(s, walk, i)
    case 3 => s.coordinator.Scheduling? && s.coordinator.remaining == [walk(i + 1)] && s.coordinator.added == 0
              && s.pending == 0 && s.workCh == [] && s.busy == [] && s.resultCh == [] && HopsWithin(s, walk, i + 1)
    case _ => s.coordinator.Scheduling? && s.coordinator.remaining == [] && s.coordinator.added == 1
              && s.pending == 0 && Lone(s.workCh, walk(i + 1)) && s.busy == [] && s.resultCh == []
              && HopsWithin(s, walk, i + 1)
  }

  /** The action that keeps to the walk. */
  ghost function Chosen(c: Config, s: State, target: string, phase: nat): Action {
    match phase
    case 0 => Take
    case 1 =>
      if s.busy != [] && s.busy[0].node in c.g.nodes && CanSteer(c, s.busy[0].node, s.busy[0].env, target) then
        var id := s.busy[0].node;
        var out :| c.allowed(id, s.busy[0].env, out) && Route(c.g, c.g.nodes[id], out).targets == [target];
        Put(0, out)
      else Stop
    case 2 => Receive
    case 3 => Schedule
    case _ => Settle
  }

  lemma VisitedGrows(walk: nat -> string, i: nat, id: string)
    ensures Visited(walk, i + 1, id) <==> Visited(walk, i, id) || walk(i) == id
  {
    if walk(i) == id {
      assert i < i + 1;
    }
  }

  lemma PutKeepsTo(c: Config, s: State, walk: nat -> string, i: nat)
    requires c.Valid() && MaySteer(c) && Walkable(c, walk) && OnTheWay(c, s, walk, i, 1)
    ensures var a := Chosen(c, s, walk(i + 1), 1); Enabled(c, s, a) && OnTheWay(c, Do(c, s, a), walk, i, 2)
  {
    var item := s.busy[0];
    assert StepsOn(c, walk, i);
    assert CanSteer(c, item.node, item.env, walk(i + 1));
    hide Route, Targets;
  }

  lemma ReceiveKeepsTo(c: Config, s: State, walk: nat -> string, i: nat)
    requires c.Valid() && Walkable(c, walk) && OnTheWay(c, s, walk, i, 2)
    ensures Enabled(c, s, Receive) && OnTheWay(c, Do(c, s, Receive), walk, i, 3)
  {
    hide RouteOf, Targets;
    forall id
      ensures Visited(walk, i + 1, id) <==> Visited(walk, i, id) || walk(i) == id
    {
      VisitedGrows(walk, i, id);
    }
  }

  lemma ScheduleKeepsTo(c: Config, s: State, walk: nat -> string, i: nat)
    requires c.Valid() && Walkable(c, walk) && OnTheWay(c, s, walk, i, 3)
    ensures Enabled(c, s, Schedule) && OnTheWay(c, Do(c, s, Schedule), walk, i, 4)
  {
    assert StepsOn(c, walk, i);
    hide Targets, Visited;
  }

  /** Each phase leads to the next, and the last to the first phase of the next round. */
  lemma StepKeepsTo(c: Config, s: State, walk: nat -> string, i: nat, phase: nat)
    requires c.Valid() && MaySteer(c) && Walkable(c, walk) && phase < 5 && OnTheWay(c, s, walk, i, phase)
    ensures var a := Chosen(c, s, walk(i + 1), phase);
            Enabled(c, s, a) && OnTheWay(c, Do(c, s, a), walk, if phase == 4 then i + 1 else i, if phase == 4 then 0 else phase + 1)
  {
    match phase
    case 0 =>
    case 1 => PutKeepsTo(c, s, walk, i);
    case 2 => ReceiveKeepsTo(c, s, walk, i);
    case 3 => ScheduleKeepsTo(c, s, walk, i);
    case 4 =>
  }

  /** The state after k actions along the walk. */
  ghost function StateAt(c: Config, walk: nat -> string, k: nat): State {
    if k == 0 then Init(c)
    else
      var s := StateAt(c, walk, k - 1);
      var a := Chosen(c, s, walk((k - 1) / 5 + 1), (k - 1) % 5);
      if Enabled(c, s, a) then Do(c, s, a) else s
  }

  ghost function WalkActions(c: Config, walk: nat -> string): nat -> Action {
    (k: nat) => Chosen(c, StateAt(c, walk, k), walk(k / 5 + 1), k % 5)
  }

  lemma WalkActionAt(c: Config, walk: nat -> string, k: nat)
    ensures WalkActions(c, walk)(k) == Chosen(c, StateAt(c, walk, k), walk(k / 5 + 1), k % 5)
  {
    hide Chosen, StateAt;
  }

  lemma StateAfter(c: Config, walk: nat -> string, k: nat)
    requires Enabled(c, StateAt(c, walk, k), Chosen(c, StateAt(c, walk, k), walk(k / 5 + 1), k % 5))
    ensures StateAt(c, walk, k + 1)
         == Do(c, StateAt(c, walk, k), Chosen(c, StateAt(c, walk, k), walk(k / 5 + 1), k % 5))
  {
    hide Chosen, Enabled, Do;
  }

  lemma WalkStarts(c: Config, walk: nat -> string)
    requires c.Valid() && Walkable(c, walk)
    ensures OnTheWay(c, StateAt(c, walk, 0), walk, 0, 0)
    ensures Legal(c, []) && After(c, []) == StateAt(c, walk, 0)
  {
  }

  lemma {:induction false} WalkIsLegal(c: Config, walk: nat -> string, k: nat)
    requires c.Valid() && MaySteer(c) && Walkable(c, walk)
    ensures Legal(c, Prefix(WalkActions(c, walk), k)) && After(c, Prefix(WalkActions(c, walk), k)) == StateAt(c, walk, k)
    ensures OnTheWay(c, StateAt(c, walk, k), walk, k / 5, k % 5)
  {
    hide OnTheWay, Walkable, MaySteer, Chosen, Enabled, Do, Play, StateAt, WalkActions;
    var actions := WalkActions(c, walk);
    if k == 0 {
      assert Prefix(actions, 0) == [];
      WalkStarts(c, walk);
    } else {
      var i := k - 1;
      WalkIsLegal(c, walk, i);
      NextPhase(k);
      StepKeepsTo(c, StateAt(c, walk, i), walk, i / 5, i % 5);
      WalkActionAt(c, walk, i);
      StateAfter(c, walk, i);
      PrefixNext(actions, i);
      PlayStep(c, Init(c), Prefix(actions, i), actions(i));
    }
  }

  lemma NextPhase(k: nat)
    requires k > 0
    ensures k / 5 == if (k - 1) % 5 == 4 then (k - 1) / 5 + 1 else (k - 1) / 5
    ensures k % 5 == if (k - 1) % 5 == 4 then 0 else (k - 1) % 5 + 1
  {
  }

  lemma WalkIsEndless(c: Config, walk: nat -> string)
    requires c.Valid() && MaySteer(c) && Walkable(c, walk)
    ensures Endless(c, WalkActions(c, walk))
  {
    forall k: nat
      ensures Legal(c, Prefix(WalkActions(c, walk), k))
    {
      WalkIsLegal(c, walk, k);
    }
  }

  // ----- round and round a cycle

  /** Links into nodes that let the first input through. */
  ghost function OpenLinks(c: Config): set<Edge<string>> {
    set e | e in c.g.Links() && (Eager(c, e.target) || !IsMerge(c, e.target))
  }

  /** Links between merges that are ready at once. */
  ghost function EagerLinks(c: Config): set<Edge<string>> {
    set e | e in c.g.Links() && Eager(c, e.source) && Eager(c, e.target)
  }

  /** Where x steps around a cycle of length m lead. */
  ghost function Around(m: nat, x: nat): (a: nat)
    requires m > 0
    ensures a < m
  {
    if x == 0 then 0
    else
      var a := Around(m, x - 1);
      if a + 1 < m then a + 1 else 0
  }

  /** Down the lead, then round the cycle for ever. */
  ghost function LeadAndCycle(lead: seq<string>, cycle: seq<string>): nat -> string
    requires |lead| >= 1 && |cycle| >= 2
  {
    (i: nat) => if i < |lead| then lead[i] else cycle[1 + Around(|cycle| - 1, i - |lead|)]
  }

  lemma LinkIsSuccessor(c: Config, u: string, v: string)
    requires c.g.WellFormed() && Edge(u, v) in c.g.Links()
    ensures v in c.g.Successors(u) && u in c.g.nodes && v in c.g.nodes
  {
    TargetsMembership(c.g.edges, u, v);
  }

  lemma NextOnWalk(c: Config, lead: seq<string>, cycle: seq<string>, v: string, i: nat)
    requires PathFromTo(OpenLinks(c), lead, c.g.entry, v) && PathFromTo(EagerLinks(c), cycle, v, v) && |cycle| >= 2
    ensures var walk := LeadAndCycle(lead, cycle); Edge(walk(i), walk(i + 1)) in c.g.Links()
    ensures i + 1 < |lead| ==> Edge(lead[i], lead[i + 1]) in OpenLinks(c)
    ensures i + 1 >= |lead| ==> Eager(c, LeadAndCycle(lead, cycle)(i + 1))
  {
    if i + 1 < |lead| {
      assert Edge(lead[i], lead[i + 1]) in OpenLinks(c);
    } else if i + 1 == |lead| {
      assert Around(|cycle| - 1, 0) == 0;
      assert LeadAndCycle(lead, cycle)(i) == v && LeadAndCycle(lead, cycle)(i + 1) == cycle[1];
      assert Edge(cycle[0], cycle[1]) in EagerLinks(c);
    } else {
      var a := Around(|cycle| - 1, i - |lead|);
      assert Around(|cycle| - 1, i + 1 - |lead|) == if a + 1 < |cycle| - 1 then a + 1 else 0;
      if a + 1 < |cycle| - 1 {
        assert Edge(cycle[1 + a], cycle[2 + a]) in EagerLinks(c);
      } else {
        assert Edge(cycle[0], cycle[1]) in EagerLinks(c);
      }
    }
  }

  lemma LeadAndCycleWalkable(c: Config, lead: seq<string>, cycle: seq<string>, v: string)
    requires c.Valid() && NoDup(lead)
    requires PathFromTo(OpenLinks(c), lead, c.g.entry, v) && PathFromTo(EagerLinks(c), cycle, v, v) && |cycle| >= 2
    ensures Walkable(c, LeadAndCycle(lead, cycle))
  {
    var walk := LeadAndCycle(lead, cycle);
    forall i: nat
      ensures StepsOn(c, walk, i)
    {
      NextOnWalk(c, lead, cycle, v, i);
      LinkIsSuccessor(c, walk(i), walk(i + 1));
      if i + 1 < |lead| && !Eager(c, walk(i + 1)) {
        assert forall j: nat :: j < i + 1 ==> walk(j) == lead[j];
      }
    }
  }

  /**
   A cycle of merges that are ready after one input, reached through nodes that let the first input
   through, makes an endless run possible, whatever the hop limit.
   */
  lemma MergeCycleOutrunsHopLimit(c: Config, v: string) returns (actions: nat -> Action)
    requires c.Valid() && MaySteer(c)
    requires Reaches(OpenLinks(c), c.g.entry, v) && ReachesPlus(EagerLinks(c), v, v)
    ensures Endless(c, actions)
  {
    var p :| PathFromTo(OpenLinks(c), p, c.g.entry, v);
    var lead := SimplePath(OpenLinks(c), c.g.entry, v, p);
    var cycle :| PathFromTo(EagerLinks(c), cycle, v, v) && |cycle| >= 2;
    LeadAndCycleWalkable(c, lead, cycle, v);
    WalkIsEndless(c, LeadAndCycle(lead, cycle));
    actions := WalkActions(c, LeadAndCycle(lead, cycle));
  }

  ghost predicate AllReachable(c: Config) {
    forall id :: id in c.g.nodes ==> Reaches(c.g.Links(), c.g.entry, id)
  }

  /** Every merge is ready after one input. */
  ghost predicate AllEager(c: Config) {
    forall id :: IsMerge(c, id) ==> Eager(c, id)
  }

  /**
   Where every node is reachable and every merge is ready after one input, an endless run exists if and
   only if some cycle consists of merges only.
   */
  lemma EndlessIffMergeCycle(c: Config)
    requires c.Valid() && MaySteer(c) && AllReachable(c) && AllEager(c)
    ensures (exists actions :: Endless(c, actions)) <==> Cyclic(MergeLinks(c))
  {
    if Cyclic(MergeLinks(c)) {
      assert MergeLinks(c) == EagerLinks(c) && c.g.Links() == OpenLinks(c);
      var v :| ReachesPlus(MergeLinks(c), v, v);
      var p :| PathFromTo(MergeLinks(c), p, v, v) && |p| >= 2;
      assert Edge(p[0], p[1]) in MergeLinks(c);
      var actions := MergeCycleOutrunsHopLimit(c, v);
    } else {
      forall actions
        ensures !Endless(c, actions)
      {
        NoInfiniteRun(c, actions);
      }
    }
  }
}
