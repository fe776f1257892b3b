/**
 Schedule independence: with deterministic nodes and merges whose inputs merge alike in any order, every
 interleaving returns the same envelope, the one obtained by evaluating the graph in topological order.
 */
module ParallelConfluence {
  import opened Sequences
  import opened Digraphs
  import opened Kahn
  import opened Envelopes
  import opened Merging
  import opened DeepMerging
  import opened ParallelRuntime
  import opened ParallelExactlyOnce

  type NodeFunction = (string, Envelope) -> Envelope

  ghost predicate Deterministic(c: Config, f: NodeFunction) {
    forall id, env, out :: c.allowed(id, env, out) <==> out == f(id, env)
  }

  /** The results of the listed nodes. */
  ghost function ResultsOf(val: map<string, Envelope>, ids: seq<string>): (r: seq<Envelope>)
    requires forall i :: 0 <= i < |ids| ==> ids[i] in val
    ensures |r| == |ids|
  {
    seq(|ids|, i requires 0 <= i < |ids| => val[ids[i]])
  }

  ghost predicate HasResults(val: map<string, Envelope>, ids: seq<string>) {
    forall i :: 0 <= i < |ids| ==> ids[i] in val
  }

  /** An ordinary node's result is its function of its predecessor's result. */
  ghost predicate OrdinaryHolds(c: Config, f: NodeFunction, val: map<string, Envelope>, p: string, n: string)
    requires p in val && n in val
  {
    !IsMerge(c, n) ==> val[n] == f(n, val[p])
  }

  /** A merge's result is its function of the merged results of its predecessors, however they are ordered. */
  ghost predicate MergeHolds(c: Config, f: NodeFunction, val: map<string, Envelope>, n: string, ps: seq<string>)
    requires n in val && HasResults(val, ps)
  {
    multiset(ps) == multiset(c.g.Predecessors(n)) ==> val[n] == f(n, c.merge(n, ResultsOf(val, ps)))
  }

  /** One result per node that explains every node's result by those before it. */
  ghost predicate Solves(c: Config, f: NodeFunction, val: map<string, Envelope>) {
    && val.Keys == c.g.nodes.Keys
    && c.g.entry in val && val[c.g.entry] == f(c.g.entry, c.start)
    && (forall p, n :: Edge(p, n) in c.g.Links() && p in val && n in val ==> OrdinaryHolds(c, f, val, p, n))
    && (forall n, ps :: n in val && IsMerge(c, n) && n != c.g.entry && HasResults(val, ps) ==> MergeHolds(c, f, val, n, ps))
  }

  /** An item waiting to run will produce its node's result. */
  ghost predicate WillYield(f: NodeFunction, val: map<string, Envelope>, items: seq<Item>) {
    forall i :: 0 <= i < |items| ==> items[i].node in val && f(items[i].node, items[i].env) == val[items[i].node]
  }

  ghost predicate Yielded(val: map<string, Envelope>, items: seq<Item>) {
    forall i :: 0 <= i < |items| ==> items[i].node in val && items[i].env == val[items[i].node]
  }

  ghost predicate Recorded(c: Config, val: map<string, Envelope>, s: State) {
    && (forall id :: id in s.outputs ==> id in val && s.outputs[id] == val[id])
    && (s.coordinator.Scheduling? ==> s.coordinator.source in val && s.coordinator.env == val[s.coordinator.source])
  }

  ghost predicate Gathered(c: Config, val: map<string, Envelope>, s: State) {
    forall n :: IsMerge(c, n) ==>
      HasResults(val, Lookup(s.mergeSources, n))
      && Lookup(s.mergeInputs, n) == ResultsOf(val, Lookup(s.mergeSources, n))
  }

  /** Every envelope in the engine is what the solution says. */
  ghost predicate Faithful(c: Config, f: NodeFunction, val: map<string, Envelope>, s: State) {
    && WillYield(f, val, s.workCh) && WillYield(f, val, s.busy) && Yielded(val, s.resultCh)
    && Recorded(c, val, s)
    && Gathered(c, val, s)
  }

  lemma WorkerStaysFaithful(c: Config, f: NodeFunction, val: map<string, Envelope>, s: State, a: Action)
    requires Deterministic(c, f) && Faithful(c, f, val, s) && Enabled(c, s, a) && IsWorkerStep(a)
    ensures Faithful(c, f, val, Do(c, s, a))
  {
    var s' := Do(c, s, a);
    assert s'.mergeSources == s.mergeSources && s'.mergeInputs == s.mergeInputs;
    hide Gathered;
    assert Gathered(c, val, s') by {
      GatheredSame(c, val, s, s');
    }
    if a.Put? {
      var rest := Without(s.busy, a.worker);
      assert forall i :: 0 <= i < |rest| ==> rest[i] == s.busy[if i < a.worker then i else i + 1];
    }
    hide Without;
  }

  lemma GatheredSame(c: Config, val: map<string, Envelope>, s: State, s': State)
    requires Gathered(c, val, s) && s'.mergeSources == s.mergeSources && s'.mergeInputs == s.mergeInputs
    ensures Gathered(c, val, s')
  {
  }

  lemma ReceiveStaysFaithful(c: Config, f: NodeFunction, val: map<string, Envelope>, s: State)
    requires Joined(c) && Orderly(c, s) && Unredirected(s)
    requires Faithful(c, f, val, s) && Enabled(c, s, Receive)
    ensures Faithful(c, f, val, Do(c, s, Receive))
  {
    ReceiveRoutesAll(c, s);
    hide Joined, Orderly, Gathered, RouteOf, Unrouted, HopsOf;
    var s' := Do(c, s, Receive);
    GatheredSame(c, val, s, s');
  }

  lemma SettleStaysFaithful(c: Config, f: NodeFunction, val: map<string, Envelope>, s: State, a: Action)
    requires Faithful(c, f, val, s) && Enabled(c, s, a) && (a.Settle? || a.Stop?)
    ensures Faithful(c, f, val, Do(c, s, a))
  {
    hide Gathered;
    GatheredSame(c, val, s, Do(c, s, a));
  }

  lemma ResultsExtend(val: map<string, Envelope>, ids: seq<string>, id: string)
    requires HasResults(val, ids) && id in val
    ensures HasResults(val, ids + [id])
    ensures ResultsOf(val, ids + [id]) == ResultsOf(val, ids) + [val[id]]
  {
  }

  lemma ScheduleGathers(c: Config, val: map<string, Envelope>, s: State, s': State)
    requires Recorded(c, val, s) && Gathered(c, val, s) && Advances(c, s, s')
    ensures Gathered(c, val, s')
  {
    var id, source := s.coordinator.remaining[0], s.coordinator.source;
    forall n | IsMerge(c, n)
      ensures HasResults(val, Lookup(s'.mergeSources, n))
      ensures Lookup(s'.mergeInputs, n) == ResultsOf(val, Lookup(s'.mergeSources, n))
    {
      if n == id {
        ResultsExtend(val, Lookup(s.mergeSources, n), source);
      }
    }
  }

  /** A pushed item: the successor at hand, with the envelope at hand or the merged inputs. */
  lemma PushedItem(c: Config, s: State)
    requires Enabled(c, s, Schedule)
    ensures var id, s' := s.coordinator.remaining[0], Do(c, s, Schedule);
            && s'.busy == s.busy && s'.resultCh == s.resultCh && s'.outputs == s.outputs
            && s'.coordinator.Scheduling? && s'.coordinator.source == s.coordinator.source
            && s'.coordinator.env == s.coordinator.env
            && s'.workCh == s.workCh + if !Pushes(c, s) then []
                                       else if IsMerge(c, id) then [Item(id, c.merge(id, Lookup(s'.mergeInputs, id)))]
                                       else [Item(id, s.coordinator.env)]
  {
    if IsMerge(c, s.coordinator.remaining[0]) {
      PushedMerge(c, s);
    }
    hide DoScheduleMerge, HopsOf;
  }

  lemma PushedMerge(c: Config, s: State)
    requires s.coordinator.Scheduling? && s.coordinator.remaining != [] && IsMerge(c, s.coordinator.remaining[0])
    ensures var id, s' := s.coordinator.remaining[0], DoScheduleMerge(c, s);
            && s'.busy == s.busy && s'.resultCh == s.resultCh && s'.outputs == s.outputs
            && s'.coordinator.Scheduling? && s'.coordinator.source == s.coordinator.source
            && s'.coordinator.env == s.coordinator.env
            && s'.workCh == s.workCh + if !Pushes(c, s) then [] else [Item(id, c.merge(id, Lookup(s'.mergeInputs, id)))]
  {
    hide ExpectedInputs;
  }

  lemma WillYieldAppend(f: NodeFunction, val: map<string, Envelope>, items: seq<Item>, item: Item)
    requires WillYield(f, val, items) && item.node in val && f(item.node, item.env) == val[item.node]
    ensures WillYield(f, val, items + [item])
  {
  }

  /** The item pushed for a ready merge or an ordinary node carries the right envelope. */
  lemma PushYields(c: Config, f: NodeFunction, val: map<string, Envelope>, s: State, s': State)
    requires Joined(c) && Solves(c, f, val) && Orderly(c, s)
    requires Faithful(c, f, val, s) && Enabled(c, s, Schedule) && Advances(c, s, s') && Pushes(c, s)
    ensures var id := s.coordinator.remaining[0];
            id in val && val[id] == f(id, if IsMerge(c, id) then c.merge(id, Lookup(s'.mergeInputs, id))
                                          else s.coordinator.env)
  {
    var id, source := s.coordinator.remaining[0], s.coordinator.source;
    NextIsFresh(c, s);
    if IsMerge(c, id) {
      ScheduleGathers(c, val, s, s');
      PushedWhenComplete(c, s, s');
      CollectOne(c, s, s', id);
      var ps := Lookup(s'.mergeSources, id);
      CollectedAll(c, s', id, ps);
      assert MergeHolds(c, f, val, id, ps);
    } else {
      assert OrdinaryHolds(c, f, val, source, id);
    }
  }

  lemma ScheduleStaysFaithful(c: Config, f: NodeFunction, val: map<string, Envelope>, s: State)
    requires Joined(c) && Solves(c, f, val) && Orderly(c, s)
    requires Faithful(c, f, val, s) && Enabled(c, s, Schedule)
    ensures Faithful(c, f, val, Do(c, s, Schedule))
  {
    var id, s' := s.coordinator.remaining[0], Do(c, s, Schedule);
    ScheduleAdvances(c, s);
    PushedItem(c, s);
    if Pushes(c, s) {
      PushYields(c, f, val, s, s');
    }
    hide Do, Joined, Solves, Orderly, Pushes, Gathered, WillYield, Yielded;
    ScheduleGathers(c, val, s, s');
    if Pushes(c, s) {
      WillYieldAppend(f, val, s.workCh, s'.workCh[|s.workCh|]);
    } else {
      assert s'.workCh == s.workCh;
    }
  }

  lemma FaithfulStep(c: Config, f: NodeFunction, val: map<string, Envelope>, s: State, a: Action)
    requires Joined(c) && Deterministic(c, f) && Solves(c, f, val)
    requires Orderly(c, s) && Unredirected(s) && Faithful(c, f, val, s) && Enabled(c, s, a)
    ensures Faithful(c, f, val, Do(c, s, a))
  {
    hide Joined, Deterministic, Solves, Orderly, Unredirected, Faithful;
    match a
    case Take => WorkerStaysFaithful(c, f, val, s, a);
    case Put(_, _) => WorkerStaysFaithful(c, f, val, s, a);
    case Receive => ReceiveStaysFaithful(c, f, val, s);
    case Schedule => ScheduleStaysFaithful(c, f, val, s);
    case Settle => SettleStaysFaithful(c, f, val, s, a);
    case Stop => SettleStaysFaithful(c, f, val, s, a);
  }

  lemma {:induction false} RunsStayFaithful(c: Config, f: NodeFunction, val: map<string, Envelope>, actions: seq<Action>)
    requires Joined(c) && Deterministic(c, f) && Solves(c, f, val) && Legal(c, actions)
    ensures Faithful(c, f, val, After(c, actions))
  {
    if actions != [] {
      var front, a := actions[..|actions| - 1], actions[|actions| - 1];
      hide Joined, Deterministic, Solves, Orderly, Unredirected, Faithful;
      RunsStayFaithful(c, f, val, front);
      RunsStayOrderly(c, front);
      FaithfulStep(c, f, val, After(c, front), a);
    }
  }

  /** Every run that returns gives each node the solution's result, and returns the sink's. */
  lemma EveryRunFindsSolution(c: Config, f: NodeFunction, val: map<string, Envelope>, actions: seq<Action>, sink: string)
    requires Joined(c) && Deterministic(c, f) && Solves(c, f, val)
    requires Legal(c, actions) && After(c, actions).coordinator.Stopped?
    requires sink in c.g.nodes
    requires forall id :: id in c.g.nodes && id != sink ==> c.g.Successors(id) != []
    ensures sink in val && After(c, actions).final == Some(val[sink])
  {
    RunsStayFaithful(c, f, val, actions);
    ReturnsSinkResult(c, actions, sink);
  }

  // ----- evaluating the graph once, in topological order

  ghost function InputOf(c: Config, val: map<string, Envelope>, n: string): Envelope {
    var ps := c.g.Predecessors(n);
    if n == c.g.entry || ps == [] || !HasResults(val, ps) then c.start
    else if IsMerge(c, n) then c.merge(n, ResultsOf(val, ps))
    else val[ps[0]]
  }

  ghost function Evaluated(c: Config, f: NodeFunction, order: seq<string>): map<string, Envelope> {
    if order == [] then map[]
    else
      var front := Evaluated(c, f, order[..|order| - 1]);
      front[order[|order| - 1] := f(order[|order| - 1], InputOf(c, front, order[|order| - 1]))]
  }

  lemma {:induction false} EvaluatedKeys(c: Config, f: NodeFunction, order: seq<string>)
    ensures Evaluated(c, f, order).Keys == Elements(order)
  {
    if order != [] {
      EvaluatedKeys(c, f, order[..|order| - 1]);
      assert order == order[..|order| - 1] + [order[|order| - 1]];
    }
  }

  lemma InputUnaffected(c: Config, val: map<string, Envelope>, n: string, x: string, env: Envelope)
    requires HasResults(val, c.g.Predecessors(n)) && x !in val
    ensures InputOf(c, val[x := env], n) == InputOf(c, val, n)
  {
    var ps := c.g.Predecessors(n);
    assert HasResults(val[x := env], ps);
    assert ResultsOf(val[x := env], ps) == ResultsOf(val, ps);
    hide Sources;
  }

  lemma PredecessorsListedBefore(c: Config, order: seq<string>, k: nat, i: nat)
    requires EdgesPointForward(c.g.Links(), order) && k < |order| && i < |c.g.Predecessors(order[k])|
    ensures c.g.Predecessors(order[k])[i] in order[..k]
  {
    NeighboursAreLinks(c, c.g.Predecessors(order[k])[i], order[k]);
  }

  lemma ForwardPrefix(c: Config, order: seq<string>)
    requires order != [] && IsTopological(c.g.Links(), order)
    ensures IsTopological(c.g.Links(), order[..|order| - 1])
    ensures order[|order| - 1] !in order[..|order| - 1]
  {
    var front := order[..|order| - 1];
    forall k, e | 0 <= k < |front| && e in c.g.Links() && e.target == front[k]
      ensures e.source in front[..k]
    {
      assert front[..k] == order[..k];
    }
  }

  /** Each listed node's result is its function of its input, as the finished evaluation sees it. */
  lemma {:induction false} EvaluatedHolds(c: Config, f: NodeFunction, order: seq<string>, k: nat)
    requires IsTopological(c.g.Links(), order) && k < |order|
    ensures var val := Evaluated(c, f, order);
            HasResults(val, c.g.Predecessors(order[k])) && order[k] in val
            && val[order[k]] == f(order[k], InputOf(c, val, order[k]))
  {
    var last := |order| - 1;
    var front, x := order[..last], order[last];
    var before := Evaluated(c, f, front);
    ForwardPrefix(c, order);
    EvaluatedKeys(c, f, front);
    var n := order[k];
    forall i | 0 <= i < |c.g.Predecessors(n)|
      ensures c.g.Predecessors(n)[i] in before
    {
      PredecessorsListedBefore(c, order, k, i);
      assert order[..k] == front[..k];
    }
    if k < last {
      assert front[k] == n;
      EvaluatedHolds(c, f, front, k);
    }
    hide IsTopological, Sources;
    InputUnaffected(c, before, n, x, f(x, InputOf(c, before, x)));
    assert x !in Elements(front);
    if k < last {
      assert n in Elements(front);
    }
  }

  ghost predicate UsesJsonMerge(c: Config, config: string -> MergeConfig) {
    forall id, inputs :: c.merge(id, inputs) == MergedEnvelope(config(id), inputs)
  }

  ghost predicate PassesThrough(c: Config, id: string) {
    forall env, out :: c.allowed(id, env, out) ==> out == env
  }

  ghost predicate KeepsUnrouted(c: Config, id: string) {
    forall env, out :: Unrouted(env) && c.allowed(id, env, out) ==> Unrouted(out)
  }

  /** Merge nodes that hand their merged envelope on unchanged, merging by the JSON strategy, meet the premise on routing. */
  lemma MergeNodesNeverRoute(c: Config, config: string -> MergeConfig)
    requires UsesJsonMerge(c, config) && Unrouted(c.start)
    requires forall id :: id in c.g.nodes ==> !c.g.nodes[id].kind.Router?
    requires forall id :: (IsMerge(c, id) && PassesThrough(c, id)) || KeepsUnrouted(c, id)
    ensures NeverRoutes(c)
  {
    hide Unrouted;
    forall id, env, out | Unrouted(env) && c.allowed(id, env, out)
      ensures Unrouted(out)
    {
      assert (IsMerge(c, id) && PassesThrough(c, id)) || KeepsUnrouted(c, id);
    }
    forall id, inputs | AllUnrouted(inputs)
      ensures Unrouted(c.merge(id, inputs))
    {
      MergeStaysUnrouted(config(id), inputs);
    }
  }

  /** No errors to begin with, and nodes add none; they may pass earlier ones on. */
  ghost predicate NeverRecordsErrors(c: Config, f: NodeFunction) {
    && c.start.errors == []
    && forall id, env: Envelope :: env.errors == [] ==> f(id, env).errors == []
  }

  ghost predicate NoneHasErrors(val: map<string, Envelope>) {
    forall id :: id in val ==> val[id].errors == []
  }

  lemma InputHasNoErrors(c: Config, config: string -> MergeConfig, val: map<string, Envelope>, n: string)
    requires UsesJsonMerge(c, config) && c.start.errors == [] && NoneHasErrors(val)
    ensures InputOf(c, val, n).errors == []
  {
    var ps := c.g.Predecessors(n);
    hide Sources;
    if HasResults(val, ps) {
      NoErrors(ResultsOf(val, ps));
    }
  }

  lemma {:induction false} EvaluationHasNoErrors(c: Config, f: NodeFunction, config: string -> MergeConfig, order: seq<string>)
    requires UsesJsonMerge(c, config) && NeverRecordsErrors(c, f)
    ensures NoneHasErrors(Evaluated(c, f, order))
  {
    if order != [] {
      var front := order[..|order| - 1];
      EvaluationHasNoErrors(c, f, config, front);
      InputHasNoErrors(c, config, Evaluated(c, f, front), order[|order| - 1]);
      hide InputOf, UsesJsonMerge;
    }
  }

  /** Wherever branches meet, the merge succeeds with the same variables in any order. */
  ghost predicate SettledAtMerges(c: Config, config: string -> MergeConfig, val: map<string, Envelope>) {
    forall n :: IsMerge(c, n) && HasResults(val, c.g.Predecessors(n)) ==>
      Settles(config(n), VarsOf(ResultsOf(val, c.g.Predecessors(n))))
  }

  /** Wherever branches meet, their variables meet the condition of the policy. */
  ghost predicate HarmlessAtMerges(c: Config, config: string -> MergeConfig, val: map<string, Envelope>) {
    forall n :: IsMerge(c, n) && HasResults(val, c.g.Predecessors(n)) ==>
      Harmless(config(n), VarsOf(ResultsOf(val, c.g.Predecessors(n))))
  }

  lemma HarmlessMergesSettle(c: Config, config: string -> MergeConfig, val: map<string, Envelope>)
    ensures SettledAtMerges(c, config, val) <==> HarmlessAtMerges(c, config, val)
  {
    hide Settles, Harmless, Sources;
    forall n | IsMerge(c, n) && HasResults(val, c.g.Predecessors(n))
      ensures Settles(config(n), VarsOf(ResultsOf(val, c.g.Predecessors(n))))
         <==> Harmless(config(n), VarsOf(ResultsOf(val, c.g.Predecessors(n))))
    {
      SettlesIffHarmless(config(n), VarsOf(ResultsOf(val, c.g.Predecessors(n))));
    }
  }

  ghost function VarsAt(val: map<string, Envelope>, ids: seq<string>): (r: seq<Vars>)
    requires HasResults(val, ids)
    ensures |r| == |ids| && r == VarsOf(ResultsOf(val, ids))
  {
    VarsOf(ResultsOf(val, ids))
  }

  lemma VarsWithout(val: map<string, Envelope>, ids: seq<string>, j: nat)
    requires HasResults(val, ids) && j < |ids|
    ensures HasResults(val, Without(ids, j))
    ensures multiset(VarsAt(val, ids)) == multiset(VarsAt(val, Without(ids, j))) + multiset{val[ids[j]].vars}
    ensures multiset(ids) == multiset(Without(ids, j)) + multiset{ids[j]}
  {
    var rest, r := Without(ids, j), VarsAt(val, ids);
    assert ids == ids[..j] + [ids[j]] + ids[j + 1..];
    assert r == r[..j] + [r[j]] + r[j + 1..];
    assert VarsAt(val, rest) == r[..j] + r[j + 1..];
  }

  lemma {:induction false} PermutedVars(val: map<string, Envelope>, ids: seq<string>, ids': seq<string>)
    requires HasResults(val, ids) && HasResults(val, ids') && multiset(ids) == multiset(ids')
    ensures multiset(VarsAt(val, ids)) == multiset(VarsAt(val, ids'))
    decreases |ids|
  {
    assert |ids| == |multiset(ids)| == |multiset(ids')| == |ids'|;
    if ids != [] {
      assert ids[0] in multiset(ids');
      var j :| 0 <= j < |ids'| && ids'[j] == ids[0];
      VarsWithout(val, ids, 0);
      VarsWithout(val, ids', j);
      hide HasResults, VarsAt, Without;
      assert multiset(Without(ids, 0)) == multiset(ids) - multiset{ids[0]};
      assert multiset(Without(ids', j)) == multiset(ids') - multiset{ids[0]};
      PermutedVars(val, Without(ids, 0), Without(ids', j));
    }
  }

  lemma MergesIgnoreOrder(c: Config, f: NodeFunction, config: string -> MergeConfig, val: map<string, Envelope>, n: string, ps: seq<string>)
    requires UsesJsonMerge(c, config)
    requires SettledAtMerges(c, config, val) && NoneHasErrors(val)
    requires IsMerge(c, n) && HasResults(val, ps) && HasResults(val, c.g.Predecessors(n))
    requires multiset(ps) == multiset(c.g.Predecessors(n))
    ensures c.merge(n, ResultsOf(val, ps)) == c.merge(n, ResultsOf(val, c.g.Predecessors(n)))
  {
    var inputs, inputs' := ResultsOf(val, c.g.Predecessors(n)), ResultsOf(val, ps);
    PermutedVars(val, c.g.Predecessors(n), ps);
    assert ErrorFree(inputs) && ErrorFree(inputs');
    MergedEnvelopeIgnoresOrder(config(n), inputs, inputs');
  }

  /** Evaluating the graph in topological order solves it, when every merge settles. */
  lemma EvaluationSolves(c: Config, f: NodeFunction, config: string -> MergeConfig, order: seq<string>)
    requires Joined(c) && UsesJsonMerge(c, config) && NeverRecordsErrors(c, f)
    requires IsTopological(c.g.Links(), order) && Elements(order) == c.g.nodes.Keys
    requires SettledAtMerges(c, config, Evaluated(c, f, order))
    ensures Solves(c, f, Evaluated(c, f, order))
  {
    var val := Evaluated(c, f, order);
    EvaluatedKeys(c, f, order);
    forall n | n in val
      ensures HasResults(val, c.g.Predecessors(n))
      ensures val[n] == f(n, InputOf(c, val, n))
    {
      assert n in Elements(order);
      var k :| 0 <= k < |order| && order[k] == n;
      EvaluatedHolds(c, f, order, k);
    }
    EvaluationHasNoErrors(c, f, config, order);
    forall p, n | Edge(p, n) in c.g.Links() && p in val && n in val
      ensures OrdinaryHolds(c, f, val, p, n)
    {
      OrdinaryEvaluated(c, f, val, p, n);
    }
    forall n, ps | n in val && IsMerge(c, n) && n != c.g.entry && HasResults(val, ps)
      ensures MergeHolds(c, f, val, n, ps)
    {
      MergeEvaluated(c, f, config, val, n, ps);
    }
  }

  lemma OrdinaryEvaluated(c: Config, f: NodeFunction, val: map<string, Envelope>, p: string, n: string)
    requires Joined(c) && Edge(p, n) in c.g.Links() && p in val && n in val && n in c.g.nodes
    requires HasResults(val, c.g.Predecessors(n)) && val[n] == f(n, InputOf(c, val, n))
    ensures OrdinaryHolds(c, f, val, p, n)
  {
    NothingPrecedesEntry(c, p);
    if !IsMerge(c, n) {
      NeighboursAreLinks(c, p, n);
      assert |c.g.Predecessors(n)| <= 1;
    }
  }

  lemma MergeEvaluated(c: Config, f: NodeFunction, config: string -> MergeConfig, val: map<string, Envelope>, n: string, ps: seq<string>)
    requires Joined(c) && UsesJsonMerge(c, config)
    requires SettledAtMerges(c, config, val) && NoneHasErrors(val)
    requires n in val && IsMerge(c, n) && n != c.g.entry && HasResults(val, ps)
    requires HasResults(val, c.g.Predecessors(n)) && val[n] == f(n, InputOf(c, val, n))
    ensures MergeHolds(c, f, val, n, ps)
  {
    if multiset(ps) == multiset(c.g.Predecessors(n)) {
      MergesIgnoreOrder(c, f, config, val, n, ps);
      HasPredecessor(c, n);
      hide UsesJsonMerge, SettledAtMerges, Joined, Sources;
    }
  }

  lemma HasPredecessor(c: Config, n: string)
    requires Joined(c) && n in c.g.nodes && n != c.g.entry
    ensures c.g.Predecessors(n) != []
  {
    assert Reaches(c.g.Links(), c.g.entry, n);
    var p :| PathFromTo(c.g.Links(), p, c.g.entry, n);
    assert Edge(p[|p| - 2], p[|p| - 1]) in c.g.Links();
    NeighboursAreLinks(c, p[|p| - 2], n);
  }

  /**
   Confluence: any two complete runs, under whatever schedules, return the same envelope, which is the
   sink's in a one-pass evaluation of the graph. It is enough that the variables that meet at a merge
   share no key, agree, or are compatible all the way down, as the merge's policy asks.
   */
  lemma ScheduleDoesNotMatter(c: Config, f: NodeFunction, config: string -> MergeConfig, order: seq<string>, sink: string,
                              actions: seq<Action>, actions': seq<Action>)
    requires Joined(c) && Deterministic(c, f) && NeverRecordsErrors(c, f)
    requires UsesJsonMerge(c, config)
    requires IsTopological(c.g.Links(), order) && Elements(order) == c.g.nodes.Keys
    requires HarmlessAtMerges(c, config, Evaluated(c, f, order))
    requires sink in c.g.nodes
    requires forall id :: id in c.g.nodes && id != sink ==> c.g.Successors(id) != []
    requires Legal(c, actions) && After(c, actions).coordinator.Stopped?
    requires Legal(c, actions') && After(c, actions').coordinator.Stopped?
    ensures sink in Evaluated(c, f, order)
    ensures After(c, actions).final == After(c, actions').final == Some(Evaluated(c, f, order)[sink])
  {
    HarmlessMergesSettle(c, config, Evaluated(c, f, order));
    EvaluationSolves(c, f, config, order);
    EveryRunFindsSolution(c, f, Evaluated(c, f, order), actions, sink);
    EveryRunFindsSolution(c, f, Evaluated(c, f, order), actions', sink);
  }
}
