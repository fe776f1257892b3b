/**
 Exactly-once execution under every interleaving, for the graphs the parallel engine is meant for:
 acyclic, without routing, everything reachable from the entry, and joined only at merge nodes that
 expect one input per incoming edge.
 */
module ParallelExactlyOnce {
  import opened Sequences
  import opened Digraphs
  import opened Kahn
  import opened Envelopes
  import opened ParallelRuntime

  /** Every node with several predecessors is a merge, and every merge expects its in-degree. */
  ghost predicate JoinsAreMerges(c: Config) {
    && (forall id :: id in c.g.nodes && |c.g.Predecessors(id)| >= 2 ==> c.g.nodes[id].kind.Merge?)
    && (forall id :: IsMerge(c, id) ==>
          c.g.nodes[id].kind.expectedInputs == 0 || c.g.nodes[id].kind.expectedInputs == |c.g.Predecessors(id)|)
  }

  ghost predicate AllUnrouted(envs: seq<Envelope>) {
    forall i :: 0 <= i < |envs| ==> Unrouted(envs[i])
  }

  /** No router nodes, no redirect to begin with, and neither nodes nor merges bring one up; they may pass one on. */
  ghost predicate NeverRoutes(c: Config) {
    && (forall id :: id in c.g.nodes ==> !c.g.nodes[id].kind.Router?)
    && Unrouted(c.start)
    && (forall id, env, out :: Unrouted(env) && c.allowed(id, env, out) ==> Unrouted(out))
    && (forall id, inputs :: AllUnrouted(inputs) ==> Unrouted(c.merge(id, inputs)))
  }

  ghost predicate Joined(c: Config) {
    && c.Valid()
    && !Cyclic(c.g.Links())
    && (forall id :: id in c.g.nodes ==> Reaches(c.g.Links(), c.g.entry, id))
    && JoinsAreMerges(c)
    && NeverRoutes(c)
  }

  lemma NothingPrecedesEntry(c: Config, p: string)
    requires Joined(c)
    ensures Edge(p, c.g.entry) !in c.g.Links()
  {
    if Edge(p, c.g.entry) in c.g.Links() {
      assert Reaches(c.g.Links(), c.g.entry, p);
      ReachesEdge(c.g.Links(), p, c.g.entry);
      ReachesTransitive(c.g.Links(), c.g.entry, p, c.g.entry);
      assert Cyclic(c.g.Links());
    }
  }

  lemma NeighboursAreLinks(c: Config, p: string, n: string)
    ensures n in c.g.Successors(p) <==> Edge(p, n) in c.g.Links()
    ensures p in c.g.Predecessors(n) <==> Edge(p, n) in c.g.Links()
  {
    TargetsMembership(c.g.edges, p, n);
  }

  // ----- conservation of nodes

  /** Every scheduled node is in exactly one place: a channel, a worker, or among the processed. */
  ghost predicate Conserved(s: State) {
    && multiset(s.scheduled)
       == multiset(NodesOf(s.workCh)) + multiset(NodesOf(s.busy)) + multiset(NodesOf(s.resultCh)) + multiset(s.processed)
    && multiset(s.started) == multiset(NodesOf(s.busy)) + multiset(NodesOf(s.resultCh)) + multiset(s.processed)
  }

  lemma NodesOfHead(items: seq<Item>)
    requires items != []
    ensures multiset(NodesOf(items)) == multiset{items[0].node} + multiset(NodesOf(items[1..]))
  {
    assert NodesOf(items) == [items[0].node] + NodesOf(items[1..]);
  }

  lemma NodesOfAppend(items: seq<Item>, item: Item)
    ensures multiset(NodesOf(items + [item])) == multiset(NodesOf(items)) + multiset{item.node}
  {
    assert NodesOf(items + [item]) == NodesOf(items) + [item.node];
  }

  lemma NodesOfWithout(items: seq<Item>, i: nat)
    requires i < |items|
    ensures multiset(NodesOf(items)) == multiset(NodesOf(Without(items, i))) + multiset{items[i].node}
  {
    var nodes := NodesOf(items);
    assert nodes == nodes[..i] + [items[i].node] + nodes[i + 1..];
    assert NodesOf(Without(items, i)) == nodes[..i] + nodes[i + 1..];
  }

  lemma ConservedTake(s: State)
    requires Conserved(s) && s.workCh != []
    ensures Conserved(DoTake(s))
  {
    NodesOfHead(s.workCh);
    NodesOfAppend(s.busy, s.workCh[0]);
    hide NodesOf;
  }

  lemma ConservedPut(s: State, worker: nat, out: Envelope)
    requires Conserved(s) && worker < |s.busy|
    ensures Conserved(DoPut(s, worker, out))
  {
    NodesOfWithout(s.busy, worker);
    NodesOfAppend(s.resultCh, Item(s.busy[worker].node, out));
    hide NodesOf, Without;
  }

  lemma ConservedReceive(c: Config, s: State)
    requires Conserved(s) && s.pending > 0 && s.resultCh != []
    ensures Conserved(DoReceive(c, s))
  {
    NodesOfHead(s.resultCh);
    hide NodesOf, RouteOf, HopsOf;
  }

  lemma ConservedPush(s: State, s': State, item: Item)
    requires Conserved(s)
    requires s'.workCh == s.workCh + [item] && s'.scheduled == s.scheduled + [item.node]
    requires s'.busy == s.busy && s'.resultCh == s.resultCh && s'.processed == s.processed && s'.started == s.started
    ensures Conserved(s')
  {
    NodesOfAppend(s.workCh, item);
    hide NodesOf;
  }

  lemma ConservedSchedule(c: Config, s: State)
    requires Conserved(s) && s.coordinator.Scheduling? && s.coordinator.remaining != []
    ensures Conserved(DoSchedule(c, s))
  {
    hide HopsOf, Conserved, DoScheduleMerge;
    var s' := DoSchedule(c, s);
    if IsMerge(c, s.coordinator.remaining[0]) {
      ConservedMerge(c, s);
    } else if s'.workCh != s.workCh {
      ConservedPush(s, s', s'.workCh[|s.workCh|]);
    } else {
      ConservedSame(s, s');
    }
  }

  lemma ConservedMerge(c: Config, s: State)
    requires Conserved(s) && s.coordinator.Scheduling? && s.coordinator.remaining != []
    requires IsMerge(c, s.coordinator.remaining[0])
    ensures Conserved(DoScheduleMerge(c, s))
  {
    hide Conserved, ExpectedInputs;
    var s' := DoScheduleMerge(c, s);
    if s'.workCh != s.workCh {
      ConservedPush(s, s', s'.workCh[|s.workCh|]);
    } else {
      ConservedSame(s, s');
    }
  }

  lemma ConservedSame(s: State, s': State)
    requires Conserved(s)
    requires s'.workCh == s.workCh && s'.scheduled == s.scheduled
    requires s'.busy == s.busy && s'.resultCh == s.resultCh && s'.processed == s.processed && s'.started == s.started
    ensures Conserved(s')
  {
  }

  lemma ConservedStep(c: Config, s: State, a: Action)
    requires Conserved(s) && Enabled(c, s, a)
    ensures Conserved(Do(c, s, a))
  {
    match a
    case Take => ConservedTake(s);
    case Put(worker, out) => ConservedPut(s, worker, out);
    case Receive => ConservedReceive(c, s);
    case Schedule => ConservedSchedule(c, s);
    case Settle =>
    case Stop =>
  }

  // ----- what has been handed to whom

  ghost predicate StillToHand(s: State, p: string, n: string) {
    s.coordinator.Scheduling? && s.coordinator.source == p && n in s.coordinator.remaining
  }

  /** The result of p has been handed to its successor n. */
  ghost predicate Delivered(c: Config, s: State, p: string, n: string) {
    Edge(p, n) in c.g.Links() && p in s.processed && !StillToHand(s, p, n)
  }

  ghost predicate AllDelivered(c: Config, s: State, n: string) {
    forall p :: Edge(p, n) in c.g.Links() ==> Delivered(c, s, p, n)
  }

  /** The coordinator works through a processed node's successors, each once. */
  ghost predicate Tidy(c: Config, s: State) {
    s.coordinator.Scheduling? ==>
      && s.coordinator.source in s.processed
      && NoDup(s.coordinator.remaining)
      && forall n :: n in s.coordinator.remaining ==> Edge(s.coordinator.source, n) in c.g.Links()
  }

  /** A node has been scheduled, once, exactly when all its predecessors have been handed over to it. */
  ghost predicate Gated(c: Config, s: State) {
    && NoDup(s.scheduled)
    && c.g.entry in s.scheduled
    && (forall n :: n in s.scheduled ==> n in c.g.nodes)
    && (forall n :: n in c.g.nodes && n != c.g.entry ==> (n in s.scheduled <==> AllDelivered(c, s, n)))
  }

  /** A merge has collected one input per predecessor handed to it. */
  ghost predicate Collecting(c: Config, s: State) {
    forall n :: IsMerge(c, n) ==>
      && NoDup(Lookup(s.mergeSources, n))
      && |Lookup(s.mergeInputs, n)| == |Lookup(s.mergeSources, n)|
      && forall p :: p in Lookup(s.mergeSources, n) <==> Delivered(c, s, p, n)
  }

  ghost predicate HopsMatch(c: Config, s: State) {
    forall n :: HopsOf(s, n) == if n in s.processed then 1 else 0
  }

  /** The invariant of a run. */
  ghost predicate Orderly(c: Config, s: State) {
    && Conserved(s)
    && Tidy(c, s)
    && Gated(c, s)
    && Collecting(c, s)
    && HopsMatch(c, s)
    && NoDup(s.processed)
    && EdgesPointForward(c.g.Links(), s.processed)
  }

  lemma InitOrderly(c: Config)
    requires Joined(c)
    ensures Orderly(c, Init(c))
  {
    var s := Init(c);
    assert NodesOf(s.workCh) == [c.g.entry];
    forall n | n in c.g.nodes && n != c.g.entry
      ensures !AllDelivered(c, s, n)
    {
      assert Reaches(c.g.Links(), c.g.entry, n);
      var p :| PathFromTo(c.g.Links(), p, c.g.entry, n);
      assert Edge(p[|p| - 2], p[|p| - 1]) in c.g.Links();
      assert !Delivered(c, s, p[|p| - 2], n);
    }
  }

  /** Something in flight has been scheduled and not yet processed. */
  lemma InFlight(c: Config, s: State, items: seq<Item>, i: nat)
    requires Conserved(s) && NoDup(s.scheduled)
    requires items == s.workCh || items == s.busy || items == s.resultCh
    requires i < |items|
    ensures items[i].node in s.scheduled && items[i].node !in s.processed
  {
    var n := items[i].node;
    assert NodesOf(items)[i] == n;
    assert n in multiset(NodesOf(items));
    NoDupMultiset(s.scheduled, n);
  }

  /** A scheduled node's predecessors have all been processed. */
  lemma ScheduledAfterPredecessors(c: Config, s: State, n: string, p: string)
    requires Joined(c) && Gated(c, s) && n in s.scheduled
    requires Edge(p, n) in c.g.Links()
    ensures p in s.processed && n != c.g.entry
  {
    NothingPrecedesEntry(c, p);
    assert Delivered(c, s, p, n);
  }

  /** Handing over is all that counts: states that agree on it agree on the gates and collections. */
  lemma SameDeliveries(c: Config, s: State, s': State)
    requires forall p, n :: Delivered(c, s', p, n) <==> Delivered(c, s, p, n)
    requires s'.scheduled == s.scheduled
    requires s'.mergeSources == s.mergeSources && s'.mergeInputs == s.mergeInputs
    ensures Gated(c, s) ==> Gated(c, s')
    ensures Collecting(c, s) ==> Collecting(c, s')
  {
    hide Delivered, NoDup;
    forall n
      ensures AllDelivered(c, s', n) <==> AllDelivered(c, s, n)
    {
    }
  }

  lemma WorkerKeepsOrder(c: Config, s: State, a: Action)
    requires Orderly(c, s) && Enabled(c, s, a) && (IsWorkerStep(a) || a.Stop?)
    ensures Orderly(c, Do(c, s, a))
  {
    hide Gated, Collecting, Conserved, NoDup, EdgesPointForward, Without;
    ConservedStep(c, s, a);
    var s' := Do(c, s, a);
    assert s'.hops == s.hops && s'.processed == s.processed && s'.scheduled == s.scheduled;
    assert s'.mergeSources == s.mergeSources && s'.mergeInputs == s.mergeInputs;
    forall p, n
      ensures Delivered(c, s', p, n) <==> Delivered(c, s, p, n)
    {
    }
    forall n
      ensures HopsOf(s', n) == HopsOf(s, n)
    {
    }
    SameDeliveries(c, s, s');
  }

  lemma SettleKeepsOrder(c: Config, s: State)
    requires Orderly(c, s) && Enabled(c, s, Settle)
    ensures Orderly(c, Do(c, s, Settle))
  {
    ConservedStep(c, s, Settle);
    var s' := Do(c, s, Settle);
    SameDeliveries(c, s, s');
    forall n
      ensures HopsOf(s', n) == HopsOf(s, n)
    {
    }
    hide Gated, Collecting, Conserved, NoDup, EdgesPointForward;
  }

  lemma ForwardAppend(E: set<Edge<string>>, order: seq<string>, n: string)
    requires EdgesPointForward(E, order)
    requires forall p :: Edge(p, n) in E ==> p in order
    ensures EdgesPointForward(E, order + [n])
  {
    var order' := order + [n];
    forall k, e | 0 <= k < |order'| && e in E && e.target == order'[k]
      ensures e.source in order'[..k]
    {
      if k < |order| {
        TakeOfAppend(order, n, k);
      } else {
        TakeOfAppend(order, n, 0);
        assert Edge(e.source, n) in E;
      }
    }
  }

  lemma ReceiveRoutesAll(c: Config, s: State)
    requires Joined(c) && Gated(c, s) && Conserved(s) && Enabled(c, s, Receive)
    requires Unrouted(s.resultCh[0].env)
    ensures s.resultCh[0].node in c.g.nodes
    ensures RouteOf(c, s.resultCh[0]) == Routing(c.g.Successors(s.resultCh[0].node), s.resultCh[0].env, None)
  {
    var item := s.resultCh[0];
    InFlight(c, s, s.resultCh, 0);
    UnroutedFollowsAll(c.g, c.g.nodes[item.node], item.env);
  }

  lemma ReceiveKeepsDeliveries(c: Config, s: State, p: string, n: string)
    requires Joined(c) && Gated(c, s) && Conserved(s) && Enabled(c, s, Receive)
    requires Unrouted(s.resultCh[0].env)
    ensures Delivered(c, Do(c, s, Receive), p, n) <==> Delivered(c, s, p, n)
  {
    ReceiveRoutesAll(c, s);
    InFlight(c, s, s.resultCh, 0);
    NeighboursAreLinks(c, p, n);
    hide Conserved, Gated, RouteOf;
  }

  lemma ReceiveIsTidy(c: Config, s: State)
    requires Joined(c) && Gated(c, s) && Conserved(s) && Enabled(c, s, Receive)
    requires Unrouted(s.resultCh[0].env)
    ensures Tidy(c, Do(c, s, Receive))
  {
    var node := s.resultCh[0].node;
    ReceiveRoutesAll(c, s);
    NeighboursDistinct(c.g.edges, node);
    forall n | n in c.g.Successors(node)
      ensures Edge(node, n) in c.g.Links()
    {
      NeighboursAreLinks(c, node, n);
    }
    hide Gated, Conserved, NoDup, RouteOf, Joined, Targets;
  }

  lemma ReceiveIsForward(c: Config, s: State)
    requires Joined(c) && Orderly(c, s) && Enabled(c, s, Receive)
    ensures EdgesPointForward(c.g.Links(), Do(c, s, Receive).processed)
    ensures NoDup(Do(c, s, Receive).processed)
    ensures HopsMatch(c, Do(c, s, Receive))
  {
    var node := s.resultCh[0].node;
    InFlight(c, s, s.resultCh, 0);
    forall p | Edge(p, node) in c.g.Links()
      ensures p in s.processed
    {
      ScheduledAfterPredecessors(c, s, node, p);
    }
    ForwardAppend(c.g.Links(), s.processed, node);
    ExtendNoDup(s.processed, node);
    hide Gated, Collecting, Conserved, NoDup, EdgesPointForward, RouteOf, Joined, Tidy;
  }

  lemma ReceiveKeepsOrder(c: Config, s: State)
    requires Joined(c) && Orderly(c, s) && Enabled(c, s, Receive)
    requires Unrouted(s.resultCh[0].env)
    ensures Orderly(c, Do(c, s, Receive))
  {
    hide Gated, Collecting, Conserved, NoDup, EdgesPointForward, RouteOf, Delivered, Joined, Tidy, HopsMatch;
    var s' := Do(c, s, Receive);
    ConservedStep(c, s, Receive);
    forall p, n
      ensures Delivered(c, s', p, n) <==> Delivered(c, s, p, n)
    {
      ReceiveKeepsDeliveries(c, s, p, n);
    }
    SameDeliveries(c, s, s');
    ReceiveIsTidy(c, s);
    ReceiveIsForward(c, s);
  }

  // ----- scheduling one successor

  ghost predicate Handing(s: State) {
    s.coordinator.Scheduling? && s.coordinator.remaining != []
  }

  /** The successor at hand is a node other than the entry that has not been scheduled yet. */
  lemma NextIsFresh(c: Config, s: State)
    requires Joined(c) && Orderly(c, s) && Handing(s)
    ensures var id := s.coordinator.remaining[0];
            id in c.g.nodes && id != c.g.entry && id !in s.scheduled && id !in s.processed
            && Edge(s.coordinator.source, id) in c.g.Links()
  {
    var id, p := s.coordinator.remaining[0], s.coordinator.source;
    assert id in s.coordinator.remaining;
    NothingPrecedesEntry(c, p);
    assert !Delivered(c, s, p, id);
    assert id in s.processed ==> id in multiset(s.processed);
    assert id in multiset(s.scheduled) ==> id in s.scheduled;
  }

  /** What scheduling one successor changes: only that successor can be added, and its collection alone can grow. */
  ghost predicate Advances(c: Config, s: State, s': State) {
    && s.coordinator.Scheduling? && s.coordinator.remaining != []
    && s'.coordinator.Scheduling? && s'.coordinator.source == s.coordinator.source
    && s'.coordinator.remaining == s.coordinator.remaining[1..]
    && s'.scheduled == s.scheduled + (if Pushes(c, s) then [s.coordinator.remaining[0]] else [])
    && s'.processed == s.processed
    && CollectsOnly(c, s, s', s.coordinator.remaining[0])
  }

  ghost predicate CollectsOnly(c: Config, s: State, s': State, id: string)
    requires s.coordinator.Scheduling?
  {
    && (forall n :: n != id ==> Lookup(s'.mergeSources, n) == Lookup(s.mergeSources, n))
    && (forall n :: n != id ==> Lookup(s'.mergeInputs, n) == Lookup(s.mergeInputs, n))
    && (forall n :: n != id ==> HopsOf(s', n) == HopsOf(s, n))
    && (HopsOf(s, id) == 0 ==> HopsOf(s', id) == 0)
    && (IsMerge(c, id) ==> Lookup(s'.mergeSources, id) == Lookup(s.mergeSources, id) + [s.coordinator.source])
    && (IsMerge(c, id) ==> Lookup(s'.mergeInputs, id) == Lookup(s.mergeInputs, id) + [s.coordinator.env])
  }

  lemma ScheduleAdvances(c: Config, s: State)
    requires Handing(s)
    ensures Advances(c, s, DoSchedule(c, s))
  {
    ScheduleCollectsOnly(c, s);
    hide CollectsOnly, HopsOf;
  }

  lemma ScheduleCollectsOnly(c: Config, s: State)
    requires Handing(s)
    ensures CollectsOnly(c, s, DoSchedule(c, s), s.coordinator.remaining[0])
  {
    if IsMerge(c, s.coordinator.remaining[0]) {
      MergeCollectsOnly(c, s);
    } else {
      var s' := DoSchedule(c, s);
      assert s'.mergeSources == s.mergeSources && s'.mergeInputs == s.mergeInputs && s'.hops == s.hops;
    }
    hide DoScheduleMerge, Pushes, CollectsOnly;
  }

  lemma MergeCollectsOnly(c: Config, s: State)
    requires s.coordinator.Scheduling? && s.coordinator.remaining != []
    requires IsMerge(c, s.coordinator.remaining[0])
    ensures CollectsOnly(c, s, DoScheduleMerge(c, s), s.coordinator.remaining[0])
  {
    MergePlan(c, s);
    MergeSourcesGrow(c, s);
    hide DoScheduleMerge, ParallelRuntime.Ready, IsMerge;
  }

  lemma MergeSourcesGrow(c: Config, s: State)
    requires s.coordinator.Scheduling? && s.coordinator.remaining != []
    requires IsMerge(c, s.coordinator.remaining[0])
    ensures var id := s.coordinator.remaining[0];
            DoScheduleMerge(c, s).mergeSources
            == s.mergeSources[id := Lookup(s.mergeSources, id) + [s.coordinator.source]]
  {
    hide ExpectedInputs;
  }

  lemma ScheduleDelivers(c: Config, s: State, s': State, p: string, n: string)
    requires Tidy(c, s) && Advances(c, s, s')
    ensures Delivered(c, s', p, n) <==>
              Delivered(c, s, p, n) || (p == s.coordinator.source && n == s.coordinator.remaining[0])
  {
    hide CollectsOnly, Pushes;
    var all := s.coordinator.remaining;
    assert all[0] in all;
    assert n in all <==> n == all[0] || n in all[1..];
    assert all[0] !in all[1..];
  }

  /** A merge has all its inputs exactly when it has as many as predecessors. */
  lemma CollectedAll(c: Config, s: State, n: string, sources: seq<string>)
    requires c.g.WellFormed() && NoDup(sources)
    requires forall p :: p in sources <==> Delivered(c, s, p, n)
    ensures |sources| >= |c.g.Predecessors(n)| <==> AllDelivered(c, s, n)
    ensures AllDelivered(c, s, n) ==> multiset(sources) == multiset(c.g.Predecessors(n))
  {
    var preds := c.g.Predecessors(n);
    NeighboursDistinct(c.g.edges, n);
    forall p
      ensures p in preds <==> Edge(p, n) in c.g.Links()
    {
      NeighboursAreLinks(c, p, n);
    }
    ElementsCardinality(sources);
    ElementsCardinality(preds);
    SubsetCardinality(Elements(sources), Elements(preds));
    hide Sources;
    if AllDelivered(c, s, n) {
      assert Elements(sources) == Elements(preds);
      SameElementsSameMultiset(sources, preds);
    } else {
      var p :| Edge(p, n) in c.g.Links() && !Delivered(c, s, p, n);
      assert p in Elements(preds) && p !in Elements(sources);
    }
  }

  lemma SameElementsSameMultiset(a: seq<string>, b: seq<string>)
    requires NoDup(a) && NoDup(b) && Elements(a) == Elements(b)
    ensures multiset(a) == multiset(b)
  {
    forall x
      ensures multiset(a)[x] == multiset(b)[x]
    {
      NoDupMultiset(a, x);
      NoDupMultiset(b, x);
      assert x in a <==> x in Elements(a);
      assert x in b <==> x in Elements(b);
    }
  }

  lemma ScheduleCollects(c: Config, s: State, s': State)
    requires Joined(c) && Orderly(c, s) && Advances(c, s, s')
    ensures Collecting(c, s')
  {
    NextIsFresh(c, s);
    hide Conserved, Gated, Joined, HopsMatch, EdgesPointForward, Enabled, Pushes;
    forall n | IsMerge(c, n)
      ensures NoDup(Lookup(s'.mergeSources, n))
      ensures |Lookup(s'.mergeInputs, n)| == |Lookup(s'.mergeSources, n)|
      ensures forall p :: p in Lookup(s'.mergeSources, n) <==> Delivered(c, s', p, n)
    {
      CollectOne(c, s, s', n);
    }
  }

  lemma CollectOne(c: Config, s: State, s': State, n: string)
    requires Tidy(c, s) && Collecting(c, s) && Advances(c, s, s') && IsMerge(c, n)
    ensures NoDup(Lookup(s'.mergeSources, n))
    ensures |Lookup(s'.mergeInputs, n)| == |Lookup(s'.mergeSources, n)|
    ensures forall p :: p in Lookup(s'.mergeSources, n) <==> Delivered(c, s', p, n)
  {
    var id, source := s.coordinator.remaining[0], s.coordinator.source;
    var sources, sources' := Lookup(s.mergeSources, n), Lookup(s'.mergeSources, n);
    assert !Delivered(c, s, source, id) by {
      assert id in s.coordinator.remaining;
    }
    assert NoDup(sources) && |Lookup(s.mergeInputs, n)| == |sources|;
    assert sources' == sources + if n == id then [source] else [];
    assert |Lookup(s'.mergeInputs, n)| == |sources'|;
    ExtendNoDup(sources, source);
    forall p
      ensures p in sources' <==> Delivered(c, s', p, n)
    {
      assert p in sources <==> Delivered(c, s, p, n);
      ScheduleDelivers(c, s, s', p, n);
    }
    hide Delivered, Advances, Tidy, NoDup;
  }

  /** The push decision is right: the successor is pushed exactly when nothing is missing any more. */
  lemma PushedWhenComplete(c: Config, s: State, s': State)
    requires Joined(c) && Orderly(c, s) && Advances(c, s, s')
    ensures Pushes(c, s) <==> AllDelivered(c, s', s.coordinator.remaining[0])
  {
    NextIsFresh(c, s);
    if IsMerge(c, s.coordinator.remaining[0]) {
      MergePushedWhenComplete(c, s, s');
    } else {
      OnlyPredecessor(c, s, s');
    }
    hide AllDelivered, Conserved, Gated, Joined, EdgesPointForward, Enabled, Advances, Tidy, Collecting;
  }

  lemma MergePushedWhenComplete(c: Config, s: State, s': State)
    requires Joined(c) && Orderly(c, s) && Advances(c, s, s')
    requires IsMerge(c, s.coordinator.remaining[0])
    ensures Pushes(c, s) <==> AllDelivered(c, s', s.coordinator.remaining[0])
  {
    var id := s.coordinator.remaining[0];
    CollectOne(c, s, s', id);
    CollectedAll(c, s', id, Lookup(s'.mergeSources, id));
    assert ExpectedInputs(c, id) == |c.g.Predecessors(id)|;
    hide AllDelivered, Conserved, Gated, Joined, EdgesPointForward, Enabled, Tidy, Collecting, ExpectedInputs, Delivered;
  }

  lemma OnlyPredecessor(c: Config, s: State, s': State)
    requires Joined(c) && Orderly(c, s) && Advances(c, s, s')
    requires !IsMerge(c, s.coordinator.remaining[0])
    ensures AllDelivered(c, s', s.coordinator.remaining[0])
  {
    var id, source := s.coordinator.remaining[0], s.coordinator.source;
    NextIsFresh(c, s);
    assert |c.g.Predecessors(id)| <= 1;
    hide Conserved, Gated, Joined, EdgesPointForward, Enabled, Collecting, HopsMatch, Pushes, Delivered;
    forall p | Edge(p, id) in c.g.Links()
      ensures Delivered(c, s', p, id)
    {
      SinglePredecessor(c, p, source, id);
      ScheduleDelivers(c, s, s', p, id);
    }
  }

  lemma SinglePredecessor(c: Config, p: string, q: string, n: string)
    requires |c.g.Predecessors(n)| <= 1
    requires Edge(p, n) in c.g.Links() && Edge(q, n) in c.g.Links()
    ensures p == q
  {
    NeighboursAreLinks(c, p, n);
    NeighboursAreLinks(c, q, n);
  }

  lemma GatesMoveOn(c: Config, s: State, s': State, id: string, pushed: bool)
    requires Gated(c, s) && id !in s.scheduled && id in c.g.nodes && id != c.g.entry
    requires s'.scheduled == s.scheduled + (if pushed then [id] else [])
    requires pushed <==> AllDelivered(c, s', id)
    requires forall n :: n != id ==> (AllDelivered(c, s', n) <==> AllDelivered(c, s, n))
    ensures Gated(c, s')
  {
    hide AllDelivered, NoDup;
    ExtendNoDup(s.scheduled, id);
    assert !pushed ==> s'.scheduled == s.scheduled;
  }

  lemma ScheduleKeepsGates(c: Config, s: State, s': State)
    requires Joined(c) && Orderly(c, s) && Advances(c, s, s')
    ensures Gated(c, s')
  {
    var id := s.coordinator.remaining[0];
    NextIsFresh(c, s);
    PushedWhenComplete(c, s, s');
    hide Conserved, Joined, HopsMatch, EdgesPointForward, Collecting, Pushes, NoDup, Enabled, CollectsOnly, Tidy, Gated;
    hide AllDelivered;
    forall n | n != id
      ensures AllDelivered(c, s', n) <==> AllDelivered(c, s, n)
    {
      GateUnchanged(c, s, s', n);
    }
    GatesMoveOn(c, s, s', id, Pushes(c, s));
  }

  lemma GateUnchanged(c: Config, s: State, s': State, n: string)
    requires Tidy(c, s) && Advances(c, s, s') && n != s.coordinator.remaining[0]
    ensures AllDelivered(c, s', n) <==> AllDelivered(c, s, n)
  {
    forall p
      ensures Delivered(c, s', p, n) <==> Delivered(c, s, p, n)
    {
      ScheduleDelivers(c, s, s', p, n);
    }
    hide Delivered, Tidy, Advances;
  }

  lemma ScheduleStaysTidy(c: Config, s: State, s': State)
    requires Tidy(c, s) && Advances(c, s, s')
    ensures Tidy(c, s')
  {
    hide CollectsOnly, Pushes;
    var all := s.coordinator.remaining;
    assert all == [all[0]] + all[1..];
  }

  lemma ScheduleKeepsHops(c: Config, s: State, s': State)
    requires HopsMatch(c, s) && Advances(c, s, s') && s.coordinator.remaining[0] !in s.processed
    ensures HopsMatch(c, s')
  {
    hide Pushes;
  }

  lemma ScheduleKeepsOrder(c: Config, s: State)
    requires Joined(c) && Orderly(c, s) && Enabled(c, s, Schedule)
    ensures Orderly(c, Do(c, s, Schedule))
  {
    var s' := Do(c, s, Schedule);
    NextIsFresh(c, s);
    ScheduleAdvances(c, s);
    ConservedStep(c, s, Schedule);
    hide Gated, Collecting, Conserved, NoDup, EdgesPointForward, Joined, Tidy, HopsMatch, Do, CollectsOnly;
    ScheduleStaysTidy(c, s, s');
    ScheduleKeepsHops(c, s, s');
    ScheduleCollects(c, s, s');
    ScheduleKeepsGates(c, s, s');
  }

  // ----- whole runs

  ghost predicate ItemsUnrouted(items: seq<Item>) {
    forall i :: 0 <= i < |items| ==> Unrouted(items[i].env)
  }

  ghost predicate InputsUnrouted(mergeInputs: map<string, seq<Envelope>>) {
    forall id :: AllUnrouted(Lookup(mergeInputs, id))
  }

  /** No envelope in the engine asks for a redirect. */
  ghost predicate Unredirected(s: State) {
    && ItemsUnrouted(s.workCh) && ItemsUnrouted(s.busy) && ItemsUnrouted(s.resultCh)
    && (s.coordinator.Scheduling? ==> Unrouted(s.coordinator.env))
    && InputsUnrouted(s.mergeInputs)
  }

  lemma UnredirectedWorker(c: Config, s: State, a: Action)
    requires NeverRoutes(c) && Unredirected(s) && Enabled(c, s, a) && IsWorkerStep(a)
    ensures Unredirected(Do(c, s, a))
  {
    if a.Put? {
      var rest := Without(s.busy, a.worker);
      assert forall i :: 0 <= i < |rest| ==> rest[i] == s.busy[if i < a.worker then i else i + 1];
    }
    hide Unrouted, Without, InputsUnrouted;
  }

  lemma UnredirectedReceive(c: Config, s: State)
    requires NeverRoutes(c) && Unredirected(s) && Enabled(c, s, Receive)
    ensures Unredirected(Do(c, s, Receive))
  {
    var item := s.resultCh[0];
    if item.node in c.g.nodes {
      UnroutedFollowsAll(c.g, c.g.nodes[item.node], item.env);
    }
    assert RouteOf(c, item).env == item.env;
    hide Unrouted, RouteOf, HopsOf, InputsUnrouted, Route, NeverRoutes;
  }

  lemma UnredirectedMerge(c: Config, s: State)
    requires NeverRoutes(c) && Unredirected(s) && Handing(s) && IsMerge(c, s.coordinator.remaining[0])
    ensures Unredirected(DoScheduleMerge(c, s))
  {
    hide Unrouted, ExpectedInputs;
    var id := s.coordinator.remaining[0];
    var inputs := Lookup(s.mergeInputs, id) + [s.coordinator.env];
    InputsGrow(s.mergeInputs, id, s.coordinator.env);
    assert Unrouted(c.merge(id, inputs));
    hide InputsUnrouted, AllUnrouted, NeverRoutes;
  }

  lemma InputsGrow(mergeInputs: map<string, seq<Envelope>>, id: string, env: Envelope)
    requires InputsUnrouted(mergeInputs) && Unrouted(env)
    ensures AllUnrouted(Lookup(mergeInputs, id) + [env])
    ensures InputsUnrouted(mergeInputs[id := Lookup(mergeInputs, id) + [env]])
  {
    hide Unrouted;
    var longer := mergeInputs[id := Lookup(mergeInputs, id) + [env]];
    assert AllUnrouted(Lookup(mergeInputs, id));
    forall n
      ensures AllUnrouted(Lookup(longer, n))
    {
      assert AllUnrouted(Lookup(mergeInputs, n));
    }
  }

  lemma UnredirectedSchedule(c: Config, s: State)
    requires NeverRoutes(c) && Unredirected(s) && Enabled(c, s, Schedule)
    ensures Unredirected(Do(c, s, Schedule))
  {
    if IsMerge(c, s.coordinator.remaining[0]) {
      UnredirectedMerge(c, s);
    }
    hide Unrouted, InputsUnrouted, NeverRoutes, DoScheduleMerge, HopsOf, Pushes;
  }

  lemma UnredirectedStep(c: Config, s: State, a: Action)
    requires NeverRoutes(c) && Unredirected(s) && Enabled(c, s, a)
    ensures Unredirected(Do(c, s, a))
  {
    match a
    case Take => UnredirectedWorker(c, s, a);
    case Put(_, _) => UnredirectedWorker(c, s, a);
    case Receive => UnredirectedReceive(c, s);
    case Schedule => UnredirectedSchedule(c, s);
    case Settle =>
    case Stop =>
  }

  lemma OrderlyStep(c: Config, s: State, a: Action)
    requires Joined(c) && Orderly(c, s) && Unredirected(s) && Enabled(c, s, a)
    ensures Orderly(c, Do(c, s, a))
  {
    hide Orderly, Joined;
    match a
    case Take => WorkerKeepsOrder(c, s, a);
    case Put(_, _) => WorkerKeepsOrder(c, s, a);
    case Receive => ReceiveKeepsOrder(c, s);
    case Schedule => ScheduleKeepsOrder(c, s);
    case Settle => SettleKeepsOrder(c, s);
    case Stop => WorkerKeepsOrder(c, s, a);
  }

  lemma {:induction false} RunsStayOrderly(c: Config, actions: seq<Action>)
    requires Joined(c) && Legal(c, actions)
    ensures Orderly(c, After(c, actions)) && Unredirected(After(c, actions))
  {
    if actions == [] {
      InitOrderly(c);
    } else {
      var front, a := actions[..|actions| - 1], actions[|actions| - 1];
      RunsStayOrderly(c, front);
      var s := After(c, front);
      assert NeverRoutes(c);
      hide Orderly, Joined, NeverRoutes, Unredirected;
      OrderlyStep(c, s, a);
      UnredirectedStep(c, s, a);
    }
  }

  /** In every reachable state, whatever a worker picks up next has all its predecessors processed. */
  lemma StartsAfterPredecessors(c: Config, actions: seq<Action>, p: string)
    requires Joined(c) && Legal(c, actions) && Enabled(c, After(c, actions), Take)
    requires Edge(p, After(c, actions).workCh[0].node) in c.g.Links()
    ensures p in After(c, actions).processed
  {
    RunsStayOrderly(c, actions);
    var s := After(c, actions);
    InFlight(c, s, s.workCh, 0);
    ScheduledAfterPredecessors(c, s, s.workCh[0].node, p);
  }

  /** In every reachable state, no node has been picked up twice. */
  lemma NeverStartsTwice(c: Config, actions: seq<Action>)
    requires Joined(c) && Legal(c, actions)
    ensures NoDup(After(c, actions).started) && NoDup(After(c, actions).scheduled)
  {
    RunsStayOrderly(c, actions);
    var s := After(c, actions);
    forall x | x in s.started
      ensures multiset(s.started)[x] == 1
    {
      NoDupMultiset(s.scheduled, x);
      assert x in multiset(s.started);
    }
    MultisetNoDup(s.started);
  }

  /** When nothing is outstanding, what was scheduled is what was processed. */
  lemma NothingInFlight(c: Config, s: State, n: string)
    requires Conserved(s) && Balanced(c, s) && s.coordinator.Stopped?
    ensures n in s.scheduled <==> n in s.processed
    ensures n in s.started <==> n in s.processed
  {
    assert s.workCh == [] && s.busy == [] && s.resultCh == [];
    assert n in s.scheduled <==> n in multiset(s.scheduled);
    assert n in s.processed <==> n in multiset(s.processed);
    assert n in s.started <==> n in multiset(s.started);
  }

  lemma ProcessedWasScheduled(c: Config, s: State)
    requires Conserved(s) && Balanced(c, s) && Gated(c, s) && s.coordinator.Stopped?
    ensures Elements(s.processed) == Elements(s.scheduled)
    ensures Elements(s.processed) <= c.g.nodes.Keys
  {
    forall n
      ensures n in s.scheduled <==> n in s.processed
    {
      NothingInFlight(c, s, n);
    }
    hide Conserved, Balanced;
  }

  /** Nodes left out would each wait for another left-out node, which an acyclic graph rules out. */
  lemma EverythingProcessed(c: Config, s: State)
    requires Joined(c) && Orderly(c, s) && Balanced(c, s) && s.coordinator.Stopped?
    ensures Elements(s.processed) == c.g.nodes.Keys
  {
    assert !Cyclic(c.g.Links());
    hide Conserved, Balanced, Collecting, HopsMatch, EdgesPointForward, NoDup, Gated, HasPredecessorIn, Joined, Cyclic;
    ProcessedWasScheduled(c, s);
    var left := c.g.nodes.Keys - Elements(s.processed);
    forall n | n in left
      ensures HasPredecessorIn(c.g.Links(), left, n)
    {
      assert n !in Elements(s.scheduled);
      LeftOutWaits(c, s, left, n);
    }
    SourcelessRestIsEmpty(c.g.Links(), c.g.nodes.Keys, Elements(s.processed));
  }

  lemma LeftOutWaits(c: Config, s: State, left: set<string>, n: string)
    requires Joined(c) && Gated(c, s) && s.coordinator.Stopped?
    requires left == c.g.nodes.Keys - Elements(s.processed) && n in left && n !in s.scheduled
    ensures HasPredecessorIn(c.g.Links(), left, n)
  {
    assert !AllDelivered(c, s, n);
    var p :| Edge(p, n) in c.g.Links() && !Delivered(c, s, p, n);
    hide Gated;
    assert p in left;
  }

  /**
   A run that returns has executed every node exactly once, processed results in an order every edge
   respects, and fed every merge exactly one envelope per predecessor.
   */
  lemma ExactlyOnce(c: Config, actions: seq<Action>)
    requires Joined(c) && Legal(c, actions) && After(c, actions).coordinator.Stopped?
    ensures NoDup(After(c, actions).started) && Elements(After(c, actions).started) == c.g.nodes.Keys
    ensures NoDup(After(c, actions).processed) && Elements(After(c, actions).processed) == c.g.nodes.Keys
    ensures EdgesPointForward(c.g.Links(), After(c, actions).processed)
    ensures forall id :: IsMerge(c, id) && id != c.g.entry ==>
              multiset(Lookup(After(c, actions).mergeSources, id)) == multiset(c.g.Predecessors(id))
              && |Lookup(After(c, actions).mergeInputs, id)| == |c.g.Predecessors(id)|
  {
    RunsStayOrderly(c, actions);
    RunsStayBalanced(c, actions);
    NeverStartsTwice(c, actions);
    var s := After(c, actions);
    EverythingProcessed(c, s);
    forall id
      ensures id in s.started <==> id in s.processed
    {
      NothingInFlight(c, s, id);
    }
    forall id | IsMerge(c, id) && id != c.g.entry
      ensures multiset(Lookup(s.mergeSources, id)) == multiset(c.g.Predecessors(id))
      ensures |Lookup(s.mergeInputs, id)| == |c.g.Predecessors(id)|
    {
      MergeWasFed(c, s, id);
    }
  }

  lemma MergeWasFed(c: Config, s: State, id: string)
    requires Joined(c) && Orderly(c, s) && IsMerge(c, id) && id != c.g.entry
    requires s.coordinator.Stopped? && Elements(s.processed) == c.g.nodes.Keys
    ensures multiset(Lookup(s.mergeSources, id)) == multiset(c.g.Predecessors(id))
    ensures |Lookup(s.mergeInputs, id)| == |c.g.Predecessors(id)|
  {
    forall p | Edge(p, id) in c.g.Links()
      ensures Delivered(c, s, p, id)
    {
      assert p in Elements(s.processed);
    }
    CollectedAll(c, s, id, Lookup(s.mergeSources, id));
    assert |multiset(Lookup(s.mergeSources, id))| == |multiset(c.g.Predecessors(id))|;
  }

  /** With a unique sink, the last processed result is the sink's. */
  lemma SinkComesLast(c: Config, actions: seq<Action>, sink: string)
    requires Joined(c) && Legal(c, actions) && After(c, actions).coordinator.Stopped?
    requires sink in c.g.nodes
    requires forall id :: id in c.g.nodes && id != sink ==> c.g.Successors(id) != []
    ensures After(c, actions).processed != []
    ensures After(c, actions).processed[|After(c, actions).processed| - 1] == sink
  {
    ExactlyOnce(c, actions);
    var order := After(c, actions).processed;
    assert sink in Elements(order);
    var last := order[|order| - 1];
    assert last in Elements(order);
    if last != sink {
      var next := c.g.Successors(last)[0];
      NeighboursAreLinks(c, last, next);
      LastLeadsNowhere(c.g.Links(), order, next);
    }
  }

  // ----- the returned envelope

  /** The coordinator works on the latest processed result, and returns the one it worked on last. */
  ghost predicate KeepsLatest(s: State) {
    && (s.coordinator.Scheduling? ==>
          && s.processed != [] && s.coordinator.source == s.processed[|s.processed| - 1]
          && s.coordinator.source in s.outputs && s.outputs[s.coordinator.source] == s.coordinator.env)
    && (!s.coordinator.Scheduling? && s.processed != [] ==>
          && s.processed[|s.processed| - 1] in s.outputs
          && s.final == Some(s.outputs[s.processed[|s.processed| - 1]]))
  }

  lemma KeepsLatestStep(c: Config, s: State, a: Action)
    requires KeepsLatest(s) && Enabled(c, s, a)
    ensures KeepsLatest(Do(c, s, a))
  {
    hide RouteOf, HopsOf, Pushes;
  }

  lemma {:induction false} RunsKeepLatest(c: Config, actions: seq<Action>)
    requires Legal(c, actions)
    ensures KeepsLatest(After(c, actions))
  {
    if actions != [] {
      var front, a := actions[..|actions| - 1], actions[|actions| - 1];
      RunsKeepLatest(c, front);
      KeepsLatestStep(c, After(c, front), a);
    }
  }

  /** With a unique sink, the run returns the sink's result. */
  lemma ReturnsSinkResult(c: Config, actions: seq<Action>, sink: string)
    requires Joined(c) && Legal(c, actions) && After(c, actions).coordinator.Stopped?
    requires sink in c.g.nodes
    requires forall id :: id in c.g.nodes && id != sink ==> c.g.Successors(id) != []
    ensures sink in After(c, actions).outputs
    ensures After(c, actions).final == Some(After(c, actions).outputs[sink])
  {
    SinkComesLast(c, actions, sink);
    RunsKeepLatest(c, actions);
  }
}
