/**
 What the parallel engine submits, in every reachable state, in terms of the graph and the run's
 history: how often each merge, what for each offered successor, and in which order the workers start.
 */
module ParallelCounts {
  import opened Sequences
  import opened Graphs
  import opened ParallelRuntime

  // ----- merges

  /** A merge that waits for k inputs is submitted for the k-th input and each later one, and once more as the entry. */
  ghost predicate SubmittedFrom(c: Config, s: State, id: string, k: nat) {
    var received := |Lookup(s.mergeInputs, id)|;
    multiset(s.scheduled)[id]
    == (if id == c.g.entry then 1 else 0) + (if received >= k then received - k + 1 else 0)
  }

  /** The inputs a merge waits for: the configured number, or its in-degree. */
  ghost predicate WaitsFor(c: Config, id: string, k: nat) {
    && k > 0 && id in c.g.nodes
    && (c.g.nodes[id].kind == Merge(k) || (c.g.nodes[id].kind == Merge(0) && |c.g.Predecessors(id)| == k))
  }

  lemma WaitsForExpected(c: Config, id: string, k: nat)
    requires WaitsFor(c, id, k)
    ensures IsMerge(c, id) && ExpectedInputs(c, id) == k
  {
  }

  /** Only the given item, if any, is submitted. */
  ghost predicate Submits(s: State, s': State, item: Option<Item>) {
    && s'.workCh == s.workCh + (if item.Some? then [item.value] else [])
    && s'.scheduled == s.scheduled + (if item.Some? then [item.value.node] else [])
  }

  lemma MergeOutcome(c: Config, s: State)
    requires s.coordinator.Scheduling? && s.coordinator.remaining != [] && IsMerge(c, s.coordinator.remaining[0])
    ensures var id, s' := s.coordinator.remaining[0], DoScheduleMerge(c, s);
            var inputs := Lookup(s.mergeInputs, id) + [s.coordinator.env];
            && s'.mergeInputs == s.mergeInputs[id := inputs] && s'.started == s.started
            && Submits(s, s', if Ready(c, id, inputs) then Some(Item(id, c.merge(id, inputs))) else None)
            && s'.coordinator.Scheduling? && s'.coordinator.remaining == s.coordinator.remaining[1..]
  {
    hide ExpectedInputs;
  }

  lemma MergeSubmits(c: Config, s: State, id: string, k: nat)
    requires WaitsFor(c, id, k) && SubmittedFrom(c, s, id, k)
    requires s.coordinator.Scheduling? && s.coordinator.remaining != [] && IsMerge(c, s.coordinator.remaining[0])
    ensures SubmittedFrom(c, DoScheduleMerge(c, s), id, k)
  {
    WaitsForExpected(c, id, k);
    MergeOutcome(c, s);
    CountOfAppend(s.scheduled, s.coordinator.remaining[0], id);
    hide DoScheduleMerge, ExpectedInputs, WaitsFor;
  }

  lemma OtherOffer(c: Config, s: State)
    requires Enabled(c, s, Schedule) && !IsMerge(c, s.coordinator.remaining[0])
    ensures var s' := DoSchedule(c, s);
            && s'.mergeInputs == s.mergeInputs
            && (s'.scheduled == s.scheduled || s'.scheduled == s.scheduled + [s.coordinator.remaining[0]])
  {
    hide HopsOf, Pushes;
  }

  lemma OfferSubmits(c: Config, s: State, id: string, k: nat)
    requires WaitsFor(c, id, k) && SubmittedFrom(c, s, id, k) && Enabled(c, s, Schedule)
    ensures SubmittedFrom(c, DoSchedule(c, s), id, k)
  {
    var next := s.coordinator.remaining[0];
    if IsMerge(c, next) {
      MergeSubmits(c, s, id, k);
      hide SubmittedFrom, DoScheduleMerge, Pushes;
    } else {
      OtherOffer(c, s);
      WaitsForExpected(c, id, k);
      CountOfAppend(s.scheduled, next, id);
      hide DoSchedule, Enabled, WaitsFor;
    }
  }

  lemma SubmittedStep(c: Config, s: State, a: Action, id: string, k: nat)
    requires WaitsFor(c, id, k) && SubmittedFrom(c, s, id, k) && Enabled(c, s, a)
    ensures SubmittedFrom(c, Do(c, s, a), id, k)
  {
    if a.Schedule? {
      OfferSubmits(c, s, id, k);
    }
    hide DoSchedule, RouteOf, HopsOf, Pushes, WaitsFor;
  }

  lemma SubmittedInit(c: Config, id: string, k: nat)
    requires k > 0
    ensures SubmittedFrom(c, Init(c), id, k)
  {
  }

  lemma {:induction false} MergeSubmissions(c: Config, actions: seq<Action>, id: string, k: nat)
    requires c.Valid() && Legal(c, actions) && WaitsFor(c, id, k)
    ensures SubmittedFrom(c, After(c, actions), id, k)
  {
    if actions == [] {
      SubmittedInit(c, id, k);
    } else {
      MergeSubmissions(c, actions[..|actions| - 1], id, k);
      SubmittedStep(c, After(c, actions[..|actions| - 1]), actions[|actions| - 1], id, k);
    }
    hide SubmittedFrom, Do, Enabled, Init, Config.Valid;
  }

  // ----- ordinary nodes

  /** The hops of a node that is no merge count its processed results. */
  ghost predicate HopsCount(c: Config, s: State, id: string) {
    HopsOf(s, id) == multiset(s.processed)[id]
  }

  lemma MergeKeepsHops(c: Config, s: State, id: string)
    requires !IsMerge(c, id) && s.coordinator.Scheduling? && s.coordinator.remaining != []
    requires IsMerge(c, s.coordinator.remaining[0])
    ensures HopsOf(DoScheduleMerge(c, s), id) == HopsOf(s, id) && DoScheduleMerge(c, s).processed == s.processed
  {
    hide ExpectedInputs;
  }

  lemma HopsCountStep(c: Config, s: State, a: Action, id: string)
    requires !IsMerge(c, id) && HopsCount(c, s, id) && Enabled(c, s, a)
    ensures HopsCount(c, Do(c, s, a), id)
  {
    hide RouteOf, Pushes;
    if a.Schedule? && IsMerge(c, s.coordinator.remaining[0]) {
      MergeKeepsHops(c, s, id);
    } else if a.Receive? {
      CountOfAppend(s.processed, s.resultCh[0].node, id);
    }
    hide DoScheduleMerge;
  }

  lemma {:induction false} HopsCountProcessed(c: Config, actions: seq<Action>, id: string)
    requires c.Valid() && Legal(c, actions) && !IsMerge(c, id)
    ensures HopsCount(c, After(c, actions), id)
  {
    if actions != [] {
      HopsCountProcessed(c, actions[..|actions| - 1], id);
      HopsCountStep(c, After(c, actions[..|actions| - 1]), actions[|actions| - 1], id);
    }
  }

  /**
   What becomes of each offered successor. A node that is no merge is submitted, with the result at hand,
   while it has been processed fewer than maxHops times. A merge records the result, and is submitted
   with everything it has received once that is the number it waits for.
   */
  lemma OfferedSuccessor(c: Config, actions: seq<Action>, id: string)
    requires c.Valid() && Legal(c, actions) && Enabled(c, After(c, actions), Schedule)
    requires After(c, actions).coordinator.remaining[0] == id && id in c.g.nodes
    ensures var s := After(c, actions);
            var s', env := Do(c, s, Schedule), s.coordinator.env;
            && s'.coordinator.remaining == s.coordinator.remaining[1..]
            && (!c.g.nodes[id].kind.Merge? ==>
                  Submits(s, s', if multiset(s.processed)[id] < c.maxHops then Some(Item(id, env)) else None))
    ensures var s := After(c, actions);
            var s', inputs := Do(c, s, Schedule), Lookup(s.mergeInputs, id) + [s.coordinator.env];
            forall k: nat :: WaitsFor(c, id, k) ==>
              && s'.mergeInputs == s.mergeInputs[id := inputs]
              && Submits(s, s', if |inputs| >= k then Some(Item(id, c.merge(id, inputs))) else None)
  {
    var s := After(c, actions);
    hide Play, Graph.WellFormed, Pushes, ExpectedInputs;
    if IsMerge(c, id) {
      MergeOutcome(c, s);
      forall k: nat | WaitsFor(c, id, k)
        ensures ExpectedInputs(c, id) == k
      {
        WaitsForExpected(c, id, k);
      }
    } else {
      HopsCountProcessed(c, actions, id);
    }
    hide DoScheduleMerge;
  }

  // ----- order of starts

  /** Workers start the submitted nodes in the order of submission. */
  ghost predicate StartsInOrder(s: State) {
    s.started + NodesOf(s.workCh) == s.scheduled
  }

  lemma TakeKeepsOrder(s: State)
    requires StartsInOrder(s) && s.workCh != []
    ensures StartsInOrder(DoTake(s))
  {
    var nodes := NodesOf(s.workCh);
    assert NodesOf(s.workCh[1..]) == nodes[1..];
    assert nodes == [nodes[0]] + nodes[1..];
    assert s.started + [nodes[0]] + nodes[1..] == s.started + nodes;
  }

  lemma AppendKeepsOrder(s: State, s': State)
    requires StartsInOrder(s) && s'.started == s.started
    requires (s'.workCh == s.workCh && s'.scheduled == s.scheduled)
             || (|s'.workCh| == |s.workCh| + 1 && s'.workCh == s.workCh + [s'.workCh[|s.workCh|]]
                 && s'.scheduled == s.scheduled + [s'.workCh[|s.workCh|].node])
    ensures StartsInOrder(s')
  {
    if s'.workCh != s.workCh {
      var item := s'.workCh[|s.workCh|];
      assert NodesOf(s'.workCh) == NodesOf(s.workCh) + [item.node];
      assert s.started + NodesOf(s.workCh) + [item.node] == s.started + (NodesOf(s.workCh) + [item.node]);
    }
  }

  lemma OfferKeepsOrder(c: Config, s: State)
    requires StartsInOrder(s) && Enabled(c, s, Schedule)
    ensures StartsInOrder(DoSchedule(c, s))
  {
    hide StartsInOrder, NodesOf, HopsOf, Pushes;
    if IsMerge(c, s.coordinator.remaining[0]) {
      MergeOutcome(c, s);
    }
    hide DoScheduleMerge, Ready;
    AppendKeepsOrder(s, DoSchedule(c, s));
  }

  lemma OrderStep(c: Config, s: State, a: Action)
    requires StartsInOrder(s) && Enabled(c, s, a)
    ensures StartsInOrder(Do(c, s, a))
  {
    if a.Take? {
      TakeKeepsOrder(s);
    } else if a.Schedule? {
      OfferKeepsOrder(c, s);
    }
    hide NodesOf, RouteOf, HopsOf, Pushes, DoSchedule, DoTake;
  }

  lemma {:induction false} StartedInSubmissionOrder(c: Config, actions: seq<Action>)
    requires c.Valid() && Legal(c, actions)
    ensures StartsInOrder(After(c, actions))
  {
    if actions != [] {
      StartedInSubmissionOrder(c, actions[..|actions| - 1]);
      OrderStep(c, After(c, actions[..|actions| - 1]), actions[|actions| - 1]);
      hide StartsInOrder;
    }
  }
}
