/** Termination of the parallel engine: on every graph without a cycle made of merge nodes only. */
module ParallelTermination {
  import opened Sequences
  import opened Digraphs
  import opened Kahn
  import opened Graphs
  import opened Envelopes
  import opened ParallelRuntime

  ghost predicate Saturated(c: Config, hops: map<string, nat>, id: string) {
    id in hops && hops[id] >= c.maxHops
  }

  ghost function Used(hops: map<string, nat>, id: string): nat {
    if id in hops then hops[id] else 0
  }

  /** Hops still available to a node, if it counts. */
  ghost function HopsLeftOf(c: Config, hops: map<string, nat>, id: string, counted: bool): nat {
    if counted && Used(hops, id) < c.maxHops then c.maxHops - Used(hops, id) else 0
  }

  /** Hops still available over the listed nodes, with or without the merges. */
  ghost function HopsLeft(c: Config, hops: map<string, nat>, ids: seq<string>, merges: bool): nat {
    if ids == [] then 0
    else
      var id := ids[|ids| - 1];
      HopsLeft(c, hops, ids[..|ids| - 1], merges) + HopsLeftOf(c, hops, id, merges || !IsMerge(c, id))
  }

  /** The items added up by a weight of their nodes. */
  ghost function Total(weight: string -> nat, items: seq<Item>): nat {
    if items == [] then 0 else Total(weight, items[..|items| - 1]) + weight(items[|items| - 1].node)
  }

  ghost function InFlight(weight: string -> nat, s: State): nat {
    Total(weight, s.workCh) + Total(weight, s.busy) + Total(weight, s.resultCh)
  }

  lemma {:induction false} TotalConcat(weight: string -> nat, xs: seq<Item>, ys: seq<Item>)
    ensures Total(weight, xs + ys) == Total(weight, xs) + Total(weight, ys)
  {
    if ys == [] {
      assert xs + ys == xs;
    } else {
      var last := |ys| - 1;
      TotalConcat(weight, xs, ys[..last]);
      assert (xs + ys)[..|xs + ys| - 1] == xs + ys[..last];
    }
  }

  lemma TotalOne(weight: string -> nat, items: seq<Item>, item: Item)
    ensures Total(weight, items + [item]) == Total(weight, items) + weight(item.node)
  {
    TakeOfAppend(items, item, 0);
  }

  lemma TotalHead(weight: string -> nat, items: seq<Item>)
    requires items != []
    ensures Total(weight, items) == Total(weight, items[1..]) + weight(items[0].node)
  {
    assert items == [items[0]] + items[1..];
    TotalConcat(weight, [items[0]], items[1..]);
    assert [items[0]][..0] == [];
  }

  lemma TotalWithout(weight: string -> nat, items: seq<Item>, i: nat)
    requires i < |items|
    ensures Total(weight, items) == Total(weight, Without(items, i)) + weight(items[i].node)
  {
    assert items == items[..i] + items[i..];
    TotalConcat(weight, items[..i], items[i..]);
    TotalHead(weight, items[i..]);
    assert items[i..][1..] == items[i + 1..];
    TotalConcat(weight, items[..i], items[i + 1..]);
  }

  lemma {:induction false} TotalSame(weight: string -> nat, weight': string -> nat, items: seq<Item>)
    requires forall id :: weight(id) == weight'(id)
    ensures Total(weight, items) == Total(weight', items)
  {
    if items != [] {
      TotalSame(weight, weight', items[..|items| - 1]);
    }
  }

  /** Workers only move items. */
  lemma WorkersKeepTotal(c: Config, s: State, a: Action, weight: string -> nat)
    requires Enabled(c, s, a) && IsWorkerStep(a)
    ensures InFlight(weight, Do(c, s, a)) == InFlight(weight, s)
  {
    hide Total;
    match a
    case Take =>
      TotalHead(weight, s.workCh);
      TotalOne(weight, s.busy, s.workCh[0]);
    case Put(worker, out) =>
      TotalWithout(weight, s.busy, worker);
      TotalOne(weight, s.resultCh, Item(s.busy[worker].node, out));
  }

  ghost predicate AllKnown(c: Config, items: seq<Item>) {
    forall i :: 0 <= i < |items| ==> items[i].node in c.g.nodes
  }

  /** Everything in flight is a node of the graph. */
  ghost predicate Known(c: Config, s: State) {
    && AllKnown(c, s.workCh) && AllKnown(c, s.busy) && AllKnown(c, s.resultCh)
  }

  lemma KnownStep(c: Config, s: State, a: Action)
    requires Known(c, s) && Enabled(c, s, a)
    ensures Known(c, Do(c, s, a))
  {
    hide RouteOf, HopsOf, Pushes, ExpectedInputs;
    match a
    case Put(worker, _) =>
      var rest := Without(s.busy, worker);
      assert forall i :: 0 <= i < |rest| ==> rest[i] == s.busy[if i < worker then i else i + 1];
      hide Without;
    case Schedule =>
      ScheduleHandles(c, s);
      hide DoSchedule;
    case _ =>
  }

  lemma {:induction false} RunsStayKnown(c: Config, actions: seq<Action>)
    requires c.Valid() && Legal(c, actions)
    ensures Known(c, After(c, actions))
  {
    if actions != [] {
      RunsStayKnown(c, actions[..|actions| - 1]);
      KnownStep(c, After(c, actions[..|actions| - 1]), actions[|actions| - 1]);
    }
  }

  // ----- hops

  lemma {:induction false} HopsLeftStep(c: Config, hops: map<string, nat>, id: string, ids: seq<string>, merges: bool)
    requires NoDup(ids)
    ensures HopsLeft(c, hops[id := Used(hops, id) + 1], ids, merges)
         == HopsLeft(c, hops, ids, merges)
            - if id in ids && (merges || !IsMerge(c, id)) && Used(hops, id) < c.maxHops then 1 else 0
  {
    if ids != [] {
      var front, last := ids[..|ids| - 1], ids[|ids| - 1];
      assert ids == front + [last];
      ExtendNoDup(front, last);
      HopsLeftStep(c, hops, id, front, merges);
    }
  }

  lemma HopsLeftDrops(c: Config, hops: map<string, nat>, id: string, merges: bool)
    requires c.g.WellFormed() && id in c.g.nodes
    ensures HopsLeft(c, hops[id := Used(hops, id) + 1], c.g.nodeOrder, merges)
         == HopsLeft(c, hops, c.g.nodeOrder, merges)
            - if (merges || !IsMerge(c, id)) && Used(hops, id) < c.maxHops then 1 else 0
  {
    HopsLeftStep(c, hops, id, c.g.nodeOrder, merges);
    assert id in Elements(c.g.nodeOrder);
  }

  /** A merge's hops do not count among the ordinary ones. */
  lemma {:induction false} HopsLeftIgnoresMerge(c: Config, hops: map<string, nat>, id: string, n: nat, ids: seq<string>)
    requires IsMerge(c, id)
    ensures HopsLeft(c, hops[id := n], ids, false) == HopsLeft(c, hops, ids, false)
  {
    if ids != [] {
      HopsLeftIgnoresMerge(c, hops, id, n, ids[..|ids| - 1]);
    }
  }

  // ----- processed results

  /** One for every item of a node that has used up its hops. */
  ghost function SaturationOf(c: Config, hops: map<string, nat>): string -> nat {
    id => if Saturated(c, hops, id) then 1 else 0
  }

  /** The two components that a processed result is measured by. */
  ghost predicate LessWork(c: Config, s': State, s: State) {
    var left', left := HopsLeft(c, s'.hops, c.g.nodeOrder, true), HopsLeft(c, s.hops, c.g.nodeOrder, true);
    || left' < left
    || (left' == left && InFlight(SaturationOf(c, s'.hops), s') < InFlight(SaturationOf(c, s.hops), s))
  }

  /**
   Processing a result either uses one of its node's remaining hops, or removes an item of a node
   without hops left while none is added.
   */
  lemma ReceiveDecreases(c: Config, s: State)
    requires c.Valid() && Known(c, s) && Enabled(c, s, Receive)
    ensures LessWork(c, Do(c, s, Receive), s)
  {
    var id := s.resultCh[0].node;
    HopsLeftDrops(c, s.hops, id, true);
    if HopsOf(s, id) >= c.maxHops {
      SaturatedReceive(c, s);
    }
    hide InFlight, HopsLeft, RouteOf, Graph.WellFormed, AllKnown;
  }

  lemma SaturatedReceive(c: Config, s: State)
    requires s.pending > 0 && s.resultCh != [] && Saturated(c, s.hops, s.resultCh[0].node)
    ensures InFlight(SaturationOf(c, DoReceive(c, s).hops), DoReceive(c, s)) == InFlight(SaturationOf(c, s.hops), s) - 1
  {
    hide Total, RouteOf;
    var id := s.resultCh[0].node;
    var before, after := SaturationOf(c, s.hops), SaturationOf(c, DoReceive(c, s).hops);
    TotalHead(before, s.resultCh);
    TotalSame(after, before, s.workCh);
    TotalSame(after, before, s.busy);
    TotalSame(after, before, s.resultCh[1..]);
  }

  // ----- weights

  /** The links between merge nodes of the given set. */
  ghost function MergeLinksIn(c: Config, live: set<string>): set<Edge<string>> {
    set e | e in c.g.Links() && IsMerge(c, e.source) && IsMerge(c, e.target) && e.source in live && e.target in live
  }

  /** The links between merge nodes. */
  ghost function MergeLinks(c: Config): set<Edge<string>> {
    MergeLinksIn(c, c.g.nodes.Keys)
  }

  ghost predicate LiveItems(c: Config, live: set<string>, items: seq<Item>) {
    forall i :: 0 <= i < |items| && IsMerge(c, items[i].node) ==> items[i].node in live
  }

  /** The merges in flight are among the given nodes. */
  ghost predicate Live(c: Config, live: set<string>, s: State) {
    LiveItems(c, live, s.workCh) && LiveItems(c, live, s.busy) && LiveItems(c, live, s.resultCh)
  }

  lemma EveryNodeIsLive(c: Config, s: State)
    ensures Live(c, c.g.nodes.Keys, s)
  {
  }

  /** The weights of the listed nodes that have one. */
  ghost function WeightSum(w: map<string, nat>, ids: seq<string>): nat {
    if ids == [] then 0
    else WeightSum(w, ids[..|ids| - 1]) + if ids[|ids| - 1] in w then w[ids[|ids| - 1]] else 0
  }

  /** A node outweighs its successors together. */
  ghost function NodeWeight(c: Config, w: map<string, nat>, id: string): nat {
    1 + WeightSum(w, c.g.Successors(id))
  }

  /** Weights for some of the live merges, among them the live merge successors of each. */
  ghost predicate Weighs(c: Config, live: set<string>, w: map<string, nat>) {
    && (forall id :: id in w ==> IsMerge(c, id) && id in live && w[id] == NodeWeight(c, w, id))
    && (forall e :: e in MergeLinksIn(c, live) && e.source in w ==> e.target in w)
  }

  ghost predicate WeighsAll(c: Config, live: set<string>, w: map<string, nat>) {
    Weighs(c, live, w) && forall id :: IsMerge(c, id) && id in live ==> id in w
  }

  lemma {:induction false} WeightSumUnchanged(w: map<string, nat>, id: string, n: nat, ids: seq<string>)
    requires id !in ids
    ensures WeightSum(w[id := n], ids) == WeightSum(w, ids)
  {
    if ids != [] {
      SplitLast(ids);
      WeightSumUnchanged(w, id, n, ids[..|ids| - 1]);
    }
  }

  ghost function Reversed(E: set<Edge<string>>): set<Edge<string>> {
    set e | e in E :: Edge(e.target, e.source)
  }

  lemma ReversedCycle(E: set<Edge<string>>)
    requires Cyclic(Reversed(E))
    ensures Cyclic(E)
  {
    var v :| ReachesPlus(Reversed(E), v, v);
    var p :| PathFromTo(Reversed(E), p, v, v) && |p| >= 2;
    var q := seq(|p|, i requires 0 <= i < |p| => p[|p| - 1 - i]);
    forall i, j | 0 <= i < j < |q| && j == i + 1
      ensures Edge(q[i], q[j]) in E
    {
      assert Edge(p[|p| - 1 - j], p[|p| - 1 - i]) in Reversed(E);
    }
    assert PathFromTo(E, q, v, v);
    assert ReachesPlus(E, v, v);
  }

  /** If merges form no cycle, some unweighed merge has only weighed merges behind it. */
  lemma NextToWeigh(c: Config, live: set<string>, w: map<string, nat>) returns (id: string)
    requires !Cyclic(MergeLinksIn(c, live)) && !WeighsAll(c, live, w) && Weighs(c, live, w)
    ensures IsMerge(c, id) && id in live && id !in w
    ensures forall e :: e in MergeLinksIn(c, live) && e.source == id ==> e.target in w
  {
    var E := MergeLinksIn(c, live);
    var rest := set n | n in c.g.nodes && IsMerge(c, n) && n in live && n !in w;
    var n0 :| IsMerge(c, n0) && n0 in live && n0 !in w;
    assert n0 in rest;
    if Sourceless(Reversed(E), rest) {
      NoSourceMeansCycle(Reversed(E), rest, n0);
      ReversedCycle(E);
    }
    id :| id in rest && !HasPredecessorIn(Reversed(E), rest, id);
    forall e | e in E && e.source == id
      ensures e.target in w
    {
      assert Edge(e.target, id) in Reversed(E);
    }
  }

  lemma NotBehind(c: Config, live: set<string>, w: map<string, nat>, n: string, id: string)
    requires Weighs(c, live, w) && IsMerge(c, id) && id in live && id !in w && (n in w || n == id)
    requires forall e :: e in MergeLinksIn(c, live) && e.source == id ==> e.target in w
    ensures id !in c.g.Successors(n)
  {
    TargetsMembership(c.g.edges, n, id);
    assert Edge(n, id) in c.g.Links() ==> Edge(n, id) in MergeLinksIn(c, live);
  }

  lemma WeighOne(c: Config, live: set<string>, w: map<string, nat>, id: string)
    requires Weighs(c, live, w) && IsMerge(c, id) && id in live && id !in w
    requires forall e :: e in MergeLinksIn(c, live) && e.source == id ==> e.target in w
    ensures Weighs(c, live, w[id := NodeWeight(c, w, id)])
  {
    var w' := w[id := NodeWeight(c, w, id)];
    forall n | n in w'
      ensures w'[n] == NodeWeight(c, w', n)
    {
      NotBehind(c, live, w, n, id);
      WeightSumUnchanged(w, id, w'[id], c.g.Successors(n));
    }
  }

  /** Live merges without a cycle of their own can be weighed. */
  lemma WeightsExist(c: Config, live: set<string>) returns (w: map<string, nat>)
    requires c.g.WellFormed() && !Cyclic(MergeLinksIn(c, live))
    ensures WeighsAll(c, live, w)
  {
    w := map[];
    while !WeighsAll(c, live, w)
      invariant Weighs(c, live, w)
      decreases |c.g.nodes.Keys - w.Keys|
    {
      var id := NextToWeigh(c, live, w);
      WeighOne(c, live, w, id);
      assert c.g.nodes.Keys - w[id := NodeWeight(c, w, id)].Keys < c.g.nodes.Keys - w.Keys;
      w := w[id := NodeWeight(c, w, id)];
    }
  }

  lemma {:induction false} WeightSumMember(w: map<string, nat>, ids: seq<string>, id: string)
    requires id in ids
    ensures WeightSum(w, [id]) <= WeightSum(w, ids)
  {
    SplitLast(ids);
    assert [id][..0] == [];
    if id != ids[|ids| - 1] {
      WeightSumMember(w, ids[..|ids| - 1], id);
    }
  }

  lemma {:induction false} WeightSumSelected(w: map<string, nat>, ids: seq<string>, targets: seq<string>)
    ensures WeightSum(w, Selected(ids, targets)) <= WeightSum(w, ids)
  {
    if ids != [] {
      var last := |ids| - 1;
      WeightSumSelected(w, ids[..last], targets);
      var kept := Selected(ids[..last], targets);
      TakeOfAppend(kept, ids[last], 0);
    }
  }

  /** Whatever is chosen among the successors weighs less than the node. */
  lemma RouteWeighsLess(c: Config, w: map<string, nat>, item: Item)
    requires c.g.WellFormed() && item.node in c.g.nodes
    ensures WeightSum(w, RouteOf(c, item).targets) < NodeWeight(c, w, item.node)
  {
    var node := c.g.nodes[item.node];
    var all, r := c.g.Successors(item.node), Route(c.g, node, item.env);
    assert node.id == item.node;
    hide WeightSum, Selected, Targets;
    if r.targets != all {
      if |r.targets| == 1 && r.targets[0] in all {
        WeightSumMember(w, all, r.targets[0]);
        assert r.targets == [r.targets[0]];
      }
      if node.kind.Router? && DecisionKey(node.id) in item.env.vars && item.env.vars[DecisionKey(node.id)].Decision? {
        WeightSumSelected(w, all, item.env.vars[DecisionKey(node.id)].targets);
      }
    }
  }

  // ----- the measure

  /** What an item weighs: merges always, other nodes once they have used up their hops. */
  ghost function WeightOf(c: Config, w: map<string, nat>, hops: map<string, nat>): string -> nat {
    id => if id in w then w[id] else if Saturated(c, hops, id) then NodeWeight(c, w, id) else 0
  }

  ghost function Queued(s: State): seq<string> {
    if s.coordinator.Scheduling? then s.coordinator.remaining else []
  }

  ghost function CoordinatorRank(s: State): nat {
    match s.coordinator
    case Scheduling(_, _, remaining, _) => 2 + |remaining|
    case Waiting => 1
    case Stopped => 0
  }

  /** The components of the measure, most significant first. */
  datatype Measure = Measure(hopsLeft: nat, weight: nat, coordinator: nat, effort: nat)

  ghost function MeasureOf(c: Config, w: map<string, nat>, s: State): Measure {
    Measure(HopsLeft(c, s.hops, c.g.nodeOrder, false), InFlight(WeightOf(c, w, s.hops), s) + WeightSum(w, Queued(s)),
            CoordinatorRank(s), WorkerEffort(s))
  }

  ghost predicate Below(m: Measure, n: Measure) {
    || m.hopsLeft < n.hopsLeft
    || (m.hopsLeft == n.hopsLeft && m.weight < n.weight)
    || (m.hopsLeft == n.hopsLeft && m.weight == n.weight && m.coordinator < n.coordinator)
    || (m.hopsLeft == n.hopsLeft && m.weight == n.weight && m.coordinator == n.coordinator && m.effort < n.effort)
  }

  lemma WorkerStepDecreases(c: Config, w: map<string, nat>, s: State, a: Action)
    requires Enabled(c, s, a) && IsWorkerStep(a)
    ensures Below(MeasureOf(c, w, Do(c, s, a)), MeasureOf(c, w, s))
  {
    hide InFlight, HopsLeft, WeightSum;
    WorkerStepsEnd(c, s, a);
    WorkersKeepTotal(c, s, a, WeightOf(c, w, s.hops));
  }

  lemma HopOf(c: Config, s: State)
    requires Enabled(c, s, Receive)
    ensures Do(c, s, Receive).hops == s.hops[s.resultCh[0].node := Used(s.hops, s.resultCh[0].node) + 1]
  {
    hide RouteOf;
  }

  /** An ordinary node's result uses up one of its hops, if it has any left. */
  lemma ReceiveUsesHop(c: Config, w: map<string, nat>, s: State)
    requires c.Valid() && Known(c, s) && Enabled(c, s, Receive)
    ensures MeasureOf(c, w, Do(c, s, Receive)).hopsLeft
         == MeasureOf(c, w, s).hopsLeft
            - if !IsMerge(c, s.resultCh[0].node) && Used(s.hops, s.resultCh[0].node) < c.maxHops then 1 else 0
  {
    hide InFlight, HopsLeft, WeightSum, Do;
    HopOf(c, s);
    HopsLeftDrops(c, s.hops, s.resultCh[0].node, false);
  }

  /** A result that uses up no ordinary hop takes more weight away than its successors bring. */
  lemma ReceiveLightens(c: Config, live: set<string>, w: map<string, nat>, s: State)
    requires c.Valid() && WeighsAll(c, live, w) && Known(c, s) && Live(c, live, s) && Enabled(c, s, Receive)
    requires IsMerge(c, s.resultCh[0].node) || Saturated(c, s.hops, s.resultCh[0].node)
    ensures MeasureOf(c, w, Do(c, s, Receive)).weight < MeasureOf(c, w, s).weight
  {
    var item := s.resultCh[0];
    var s' := DoReceive(c, s);
    var before, after := WeightOf(c, w, s.hops), WeightOf(c, w, s'.hops);
    assert before(item.node) == NodeWeight(c, w, item.node);
    forall id
      ensures after(id) == before(id)
    {
    }
    RouteWeighsLess(c, w, item);
    hide Total, WeightSum, NodeWeight, RouteOf, WeightOf;
    TotalHead(before, s.resultCh);
    TotalSame(after, before, s.workCh);
    TotalSame(after, before, s.busy);
    TotalSame(after, before, s.resultCh[1..]);
    NothingWeighed(w);
  }

  lemma NothingWeighed(w: map<string, nat>)
    ensures WeightSum(w, []) == 0
  {
  }

  lemma ReceiveStepDecreases(c: Config, live: set<string>, w: map<string, nat>, s: State)
    requires c.Valid() && WeighsAll(c, live, w) && Known(c, s) && Live(c, live, s) && Enabled(c, s, Receive)
    ensures Below(MeasureOf(c, w, Do(c, s, Receive)), MeasureOf(c, w, s))
  {
    hide MeasureOf, Do, WeighsAll, Known, Live;
    var id := s.resultCh[0].node;
    ReceiveUsesHop(c, w, s);
    if IsMerge(c, id) || Saturated(c, s.hops, id) {
      ReceiveLightens(c, live, w, s);
    }
  }

  lemma {:induction false} WeightSumHead(w: map<string, nat>, ids: seq<string>)
    requires ids != []
    ensures WeightSum(w, ids) == WeightSum(w, ids[1..]) + if ids[0] in w then w[ids[0]] else 0
  {
    if |ids| > 1 {
      var last := |ids| - 1;
      WeightSumHead(w, ids[..last]);
      assert ids[..last][1..] == ids[1..][..last - 1];
    } else {
      assert ids[..0] == [] && ids[1..] == [];
    }
  }

  /** What handling the successor at hand changes. */
  ghost predicate Handles(c: Config, s: State, s': State, id: string, rest: seq<string>) {
    && s'.busy == s.busy && s'.resultCh == s.resultCh
    && s'.coordinator.Scheduling? && s'.coordinator.remaining == rest
    && (s'.hops == s.hops || (IsMerge(c, id) && s'.hops == s.hops[id := 0] && PushesOne(c, s, s', id)))
    && (s'.workCh == s.workCh || PushesOne(c, s, s', id))
  }

  ghost predicate PushesOne(c: Config, s: State, s': State, id: string) {
    && (IsMerge(c, id) || !Saturated(c, s.hops, id))
    && id in c.g.nodes && |s'.workCh| == |s.workCh| + 1
    && s'.workCh[|s.workCh|].node == id && s'.workCh == s.workCh + [s'.workCh[|s.workCh|]]
  }

  lemma MergeHandles(c: Config, s: State)
    requires s.coordinator.Scheduling? && s.coordinator.remaining != [] && IsMerge(c, s.coordinator.remaining[0])
    ensures Handles(c, s, DoScheduleMerge(c, s), s.coordinator.remaining[0], s.coordinator.remaining[1..])
  {
    hide ExpectedInputs;
  }

  lemma ScheduleHandles(c: Config, s: State)
    requires Enabled(c, s, Schedule)
    ensures Handles(c, s, Do(c, s, Schedule), s.coordinator.remaining[0], s.coordinator.remaining[1..])
  {
    hide Pushes;
    var id := s.coordinator.remaining[0];
    if IsMerge(c, id) {
      MergeHandles(c, s);
    }
    hide DoScheduleMerge;
  }

  lemma HandledHops(c: Config, s: State, s': State, id: string, rest: seq<string>)
    requires Handles(c, s, s', id, rest)
    ensures HopsLeft(c, s'.hops, c.g.nodeOrder, false) == HopsLeft(c, s.hops, c.g.nodeOrder, false)
  {
    if s'.hops != s.hops {
      HopsLeftIgnoresMerge(c, s.hops, id, 0, c.g.nodeOrder);
    }
  }

  lemma HandledWeight(c: Config, live: set<string>, w: map<string, nat>, s: State, s': State, id: string, rest: seq<string>)
    requires WeighsAll(c, live, w) && Handles(c, s, s', id, rest) && LiveItems(c, live, s'.workCh)
    ensures InFlight(WeightOf(c, w, s'.hops), s') <= InFlight(WeightOf(c, w, s.hops), s) + if id in w then w[id] else 0
  {
    var before, after := WeightOf(c, w, s.hops), WeightOf(c, w, s'.hops);
    hide Total, NodeWeight;
    forall n
      ensures after(n) == before(n)
    {
    }
    if PushesOne(c, s, s', id) {
      TotalOne(before, s.workCh, s'.workCh[|s.workCh|]);
    }
    TotalSame(after, before, s'.workCh);
    TotalSame(after, before, s.busy);
    TotalSame(after, before, s.resultCh);
  }

  /** Handling one successor moves its weight at most from the coordinator to the work channel. */
  lemma ScheduleStepDecreases(c: Config, live: set<string>, w: map<string, nat>, s: State)
    requires WeighsAll(c, live, w) && Enabled(c, s, Schedule) && Live(c, live, Do(c, s, Schedule))
    ensures Below(MeasureOf(c, w, Do(c, s, Schedule)), MeasureOf(c, w, s))
  {
    var s', id, rest := Do(c, s, Schedule), s.coordinator.remaining[0], s.coordinator.remaining[1..];
    ScheduleHandles(c, s);
    hide Do, InFlight, WeightSum, HopsLeft, WeighsAll, PushesOne;
    HandledHops(c, s, s', id, rest);
    HandledWeight(c, live, w, s, s', id, rest);
    WeightSumHead(w, s.coordinator.remaining);
  }

  /** Every step of the engine decreases the measure, as long as only live merges are in flight. */
  lemma StepDecreases(c: Config, live: set<string>, w: map<string, nat>, s: State, a: Action)
    requires c.Valid() && WeighsAll(c, live, w) && Known(c, s) && Enabled(c, s, a)
    requires Live(c, live, s) && Live(c, live, Do(c, s, a))
    ensures Below(MeasureOf(c, w, Do(c, s, a)), MeasureOf(c, w, s))
  {
    match a
    case Take => WorkerStepDecreases(c, w, s, a);
    case Put(_, _) => WorkerStepDecreases(c, w, s, a);
    case Receive => ReceiveStepDecreases(c, live, w, s);
    case Schedule => ScheduleStepDecreases(c, live, w, s);
    case Settle => NothingWeighed(w);
    case Stop =>
  }

  ghost function Prefix(actions: nat -> Action, n: nat): (p: seq<Action>)
    ensures |p| == n
  {
    seq(n, i requires 0 <= i < n => actions(i))
  }

  lemma PrefixNext(actions: nat -> Action, n: nat)
    ensures Prefix(actions, n + 1) == Prefix(actions, n) + [actions(n)]
  {
  }

  ghost predicate LiveAt(c: Config, live: set<string>, actions: nat -> Action, k: nat) {
    Legal(c, Prefix(actions, k)) ==> Live(c, live, After(c, Prefix(actions, k)))
  }

  lemma {:induction false} StopsBeyond(c: Config, live: set<string>, w: map<string, nat>, actions: nat -> Action, n: nat, m: Measure)
    returns (k: nat)
    requires c.Valid() && WeighsAll(c, live, w) && forall i: nat :: n <= i ==> LiveAt(c, live, actions, i)
    requires Legal(c, Prefix(actions, n)) && m == MeasureOf(c, w, After(c, Prefix(actions, n)))
    ensures !Legal(c, Prefix(actions, k))
    decreases m.hopsLeft, m.weight, m.coordinator, m.effort
  {
    hide MeasureOf, WeighsAll, Live;
    k := n + 1;
    if Legal(c, Prefix(actions, n + 1)) {
      TakeOfAppend(Prefix(actions, n), actions(n), 0);
      PrefixNext(actions, n);
      RunsStayKnown(c, Prefix(actions, n));
      assert LiveAt(c, live, actions, n) && LiveAt(c, live, actions, n + 1);
      StepDecreases(c, live, w, After(c, Prefix(actions, n)), actions(n));
      k := StopsBeyond(c, live, w, actions, n + 1, MeasureOf(c, w, After(c, Prefix(actions, n + 1))));
    }
  }

  /** Every position of the infinite sequence of actions can be reached. */
  ghost predicate Endless(c: Config, actions: nat -> Action) {
    forall k: nat :: Legal(c, Prefix(actions, k))
  }

  /** No interleaving goes on for ever if from some point on only merges without a cycle of their own are in flight. */
  lemma LiveMergesNeedACycle(c: Config, live: set<string>, actions: nat -> Action, n: nat)
    requires c.Valid() && !Cyclic(MergeLinksIn(c, live)) && forall i: nat :: n <= i ==> LiveAt(c, live, actions, i)
    ensures !Endless(c, actions)
  {
    hide MeasureOf, WeighsAll, LiveAt, Cyclic;
    if Legal(c, Prefix(actions, n)) {
      var w := WeightsExist(c, live);
      var k := StopsBeyond(c, live, w, actions, n, MeasureOf(c, w, After(c, Prefix(actions, n))));
    }
  }

  /** Without a cycle of merges only, no interleaving goes on for ever, whatever the other cycles and the nodes. */
  lemma NoInfiniteRun(c: Config, actions: nat -> Action)
    requires c.Valid() && !Cyclic(MergeLinks(c))
    ensures !Endless(c, actions)
  {
    forall i: nat
      ensures LiveAt(c, c.g.nodes.Keys, actions, i)
    {
      if Legal(c, Prefix(actions, i)) {
        EveryNodeIsLive(c, After(c, Prefix(actions, i)));
      }
    }
    LiveMergesNeedACycle(c, c.g.nodes.Keys, actions, 0);
  }
}
