/** Which cycles of merges keep the parallel engine going: exactly those that some run fills. */
module ParallelFeeding {
  import opened Sequences
  import opened Digraphs
  import opened Kahn
  import opened Envelopes
  import opened ParallelRuntime
  import opened ParallelTermination
  import opened ParallelEndless

  /** The merge has as many inputs as it waits for. They are kept, so every further input makes it run again. */
  ghost predicate Filled(c: Config, s: State, n: string) {
    IsMerge(c, n) && |Lookup(s.mergeInputs, n)| >= ExpectedInputs(c, n)
  }

  ghost function FilledNodes(c: Config, s: State): set<string> {
    set n | n in c.g.nodes.Keys && Filled(c, s, n)
  }

  ghost function FilledLinks(c: Config, s: State): set<Edge<string>> {
    MergeLinksIn(c, FilledNodes(c, s))
  }

  lemma InputsOnlyGrow(c: Config, s: State, a: Action, n: string)
    requires Enabled(c, s, a)
    ensures |Lookup(Do(c, s, a).mergeInputs, n)| >= |Lookup(s.mergeInputs, n)|
  {
    if a.Schedule? && IsMerge(c, s.coordinator.remaining[0]) {
      MergePlan(c, s);
    }
    hide DoScheduleMerge, Pushes, HopsOf, RouteOf, ParallelRuntime.Ready;
  }

  lemma FilledStays(c: Config, s: State, a: Action)
    requires Enabled(c, s, a)
    ensures FilledNodes(c, s) <= FilledNodes(c, Do(c, s, a))
    ensures FilledLinks(c, s) <= FilledLinks(c, Do(c, s, a))
  {
    hide Do, ExpectedInputs;
    forall n | n in FilledNodes(c, s)
      ensures n in FilledNodes(c, Do(c, s, a))
    {
      InputsOnlyGrow(c, s, a, n);
    }
  }

  /** A merge is filled by the input that makes it run. */
  lemma FilledByPush(c: Config, s: State)
    requires s.coordinator.Scheduling? && s.coordinator.remaining != [] && IsMerge(c, s.coordinator.remaining[0])
    ensures Filled(c, DoSchedule(c, s), s.coordinator.remaining[0]) <==> Pushes(c, s)
  {
    MergePlan(c, s);
    hide DoScheduleMerge, ExpectedInputs;
  }

  // ----- an endless run fills a cycle

  lemma PushedIsLive(c: Config, live: set<string>, s: State)
    requires Enabled(c, s, Schedule) && LiveItems(c, live, s.workCh) && FilledNodes(c, DoSchedule(c, s)) <= live
    ensures LiveItems(c, live, DoSchedule(c, s).workCh)
  {
    var id, s' := s.coordinator.remaining[0], DoSchedule(c, s);
    ScheduleHandles(c, s);
    ScheduleShape(c, s);
    if IsMerge(c, id) {
      FilledByPush(c, s);
    }
    hide DoSchedule, Pushes, Filled;
  }

  lemma LiveStep(c: Config, live: set<string>, s: State, a: Action)
    requires Live(c, live, s) && Enabled(c, s, a) && FilledNodes(c, Do(c, s, a)) <= live
    ensures Live(c, live, Do(c, s, a))
  {
    hide FilledNodes, IsMerge, RouteOf, HopsOf;
    match a
    case Put(worker, _) =>
      var rest := Without(s.busy, worker);
      assert forall i :: 0 <= i < |rest| ==> rest[i] == s.busy[if i < worker then i else i + 1];
      hide Without;
    case Schedule =>
      PushedIsLive(c, live, s);
      ScheduleShape(c, s);
      hide DoSchedule;
    case _ =>
  }

  lemma StepOf(c: Config, actions: nat -> Action, k: nat)
    requires Legal(c, Prefix(actions, k + 1))
    ensures Legal(c, Prefix(actions, k)) && Enabled(c, After(c, Prefix(actions, k)), actions(k))
    ensures After(c, Prefix(actions, k + 1)) == Do(c, After(c, Prefix(actions, k)), actions(k))
  {
    TakeOfAppend(Prefix(actions, k), actions(k), 0);
    PrefixNext(actions, k);
  }

  /** The entry runs and is received before anything else happens, which leaves nothing in flight. */
  lemma EntryGoesFirst(c: Config, actions: nat -> Action)
    requires Legal(c, Prefix(actions, 3))
    ensures Live(c, {}, After(c, Prefix(actions, 3)))
  {
    StepOf(c, actions, 2);
    StepOf(c, actions, 1);
    StepOf(c, actions, 0);
    assert Prefix(actions, 0) == [];
    hide Play, RouteOf, HopsOf, DoSchedule;
  }

  ghost predicate FilledAt(c: Config, actions: nat -> Action, k: nat, n: string) {
    Legal(c, Prefix(actions, k)) && Filled(c, After(c, Prefix(actions, k)), n)
  }

  ghost predicate SometimeFilled(c: Config, actions: nat -> Action, n: string) {
    exists k: nat :: FilledAt(c, actions, k, n)
  }

  ghost function EverFilled(c: Config, actions: nat -> Action): set<string> {
    set n | n in c.g.nodes.Keys && SometimeFilled(c, actions, n)
  }

  lemma FilledNext(c: Config, actions: nat -> Action, k: nat, n: string)
    requires FilledAt(c, actions, k, n) && Legal(c, Prefix(actions, k + 1))
    ensures FilledAt(c, actions, k + 1, n)
  {
    StepOf(c, actions, k);
    hide Play, ExpectedInputs, Do, Enabled;
    InputsOnlyGrow(c, After(c, Prefix(actions, k)), actions(k), n);
  }

  lemma {:induction false} FilledLater(c: Config, actions: nat -> Action, k: nat, k': nat, n: string)
    requires Endless(c, actions) && k <= k' && FilledAt(c, actions, k, n)
    ensures FilledAt(c, actions, k', n)
    decreases k'
  {
    hide FilledAt, Legal;
    if k < k' {
      FilledLater(c, actions, k, k' - 1, n);
      assert Legal(c, Prefix(actions, k'));
      FilledNext(c, actions, k' - 1, n);
    }
  }

  lemma {:induction false} AllFilledBy(c: Config, actions: nat -> Action, nodes: set<string>) returns (k: nat)
    requires Endless(c, actions) && nodes <= EverFilled(c, actions)
    ensures forall n :: n in nodes ==> FilledAt(c, actions, k, n)
    decreases |nodes|
  {
    hide FilledAt, Endless;
    if nodes == {} {
      k := 0;
    } else {
      var n :| n in nodes;
      assert SometimeFilled(c, actions, n);
      var i: nat :| FilledAt(c, actions, i, n);
      var j := AllFilledBy(c, actions, nodes - {n});
      k := if i < j then j else i;
      forall m | m in nodes
        ensures FilledAt(c, actions, k, m)
      {
        if m == n {
          FilledLater(c, actions, i, k, n);
        } else {
          FilledLater(c, actions, j, k, m);
        }
      }
    }
  }

  lemma FilledEver(c: Config, actions: nat -> Action, k: nat)
    requires Legal(c, Prefix(actions, k))
    ensures FilledNodes(c, After(c, Prefix(actions, k))) <= EverFilled(c, actions)
  {
    forall n | n in FilledNodes(c, After(c, Prefix(actions, k)))
      ensures n in EverFilled(c, actions)
    {
      assert FilledAt(c, actions, k, n);
    }
  }

  lemma {:induction false} LiveFromThird(c: Config, actions: nat -> Action, k: nat)
    requires Endless(c, actions) && k >= 3
    ensures LiveAt(c, EverFilled(c, actions), actions, k)
  {
    hide Live, FilledNodes, EverFilled;
    assert Legal(c, Prefix(actions, k));
    if k == 3 {
      EntryGoesFirst(c, actions);
      FewerAreLive(c, EverFilled(c, actions), After(c, Prefix(actions, 3)));
    } else {
      LiveFromThird(c, actions, k - 1);
      StepOf(c, actions, k - 1);
      FilledEver(c, actions, k);
      hide Do, Play;
      LiveStep(c, EverFilled(c, actions), After(c, Prefix(actions, k - 1)), actions(k - 1));
    }
  }

  lemma FewerAreLive(c: Config, live: set<string>, s: State)
    requires Live(c, {}, s)
    ensures Live(c, live, s)
  {
  }

  lemma FillsAt(c: Config, actions: nat -> Action, nodes: set<string>, k: nat)
    requires Legal(c, Prefix(actions, k)) && nodes <= c.g.nodes.Keys && forall n :: n in nodes ==> FilledAt(c, actions, k, n)
    ensures MergeLinksIn(c, nodes) <= FilledLinks(c, After(c, Prefix(actions, k)))
  {
    hide Play, ExpectedInputs;
    var s := After(c, Prefix(actions, k));
    forall n | n in nodes
      ensures n in FilledNodes(c, s)
    {
      assert FilledAt(c, actions, k, n);
    }
  }

  /** Every endless run fills all the merges of some cycle. */
  lemma EndlessFillsACycle(c: Config, actions: nat -> Action) returns (k: nat)
    requires c.Valid() && Endless(c, actions)
    ensures Legal(c, Prefix(actions, k)) && Cyclic(FilledLinks(c, After(c, Prefix(actions, k))))
  {
    hide Cyclic, FilledLinks, LiveAt, Play, MergeLinksIn;
    var live := EverFilled(c, actions);
    forall i: nat | 3 <= i
      ensures LiveAt(c, live, actions, i)
    {
      LiveFromThird(c, actions, i);
    }
    if !Cyclic(MergeLinksIn(c, live)) {
      LiveMergesNeedACycle(c, live, actions, 3);
    }
    k := AllFilledBy(c, actions, live);
    assert Legal(c, Prefix(actions, k));
    FillsAt(c, actions, live, k);
    CyclicMonotone(MergeLinksIn(c, live), FilledLinks(c, After(c, Prefix(actions, k))));
  }

  // ----- a filled cycle can go on for ever

  /** The node lies on a cycle of filled merges. */
  ghost predicate Cycling(c: Config, s: State, n: string) {
    ReachesPlus(FilledLinks(c, s), n, n)
  }

  lemma OnCycle(E: set<Edge<string>>, p: seq<string>, v: string, i: nat)
    requires PathFromTo(E, p, v, v) && |p| >= 2 && i < |p|
    ensures ReachesPlus(E, p[i], p[i])
  {
    SubPath(E, p, 0, i + 1);
    SubPath(E, p, i, |p|);
    assert Reaches(E, v, p[i]) && Reaches(E, p[i], v);
    if i > 0 {
      assert |p[0..i + 1]| >= 2;
      assert ReachesPlus(E, v, p[i]);
    } else {
      assert |p[i..|p|]| >= 2;
      assert ReachesPlus(E, p[i], v);
    }
    ReachesTransitive(E, p[i], v, p[i]);
  }

  lemma CyclingStays(c: Config, s: State, a: Action, n: string)
    requires Enabled(c, s, a) && Cycling(c, s, n)
    ensures Cycling(c, Do(c, s, a), n)
  {
    hide Do, FilledLinks;
    FilledStays(c, s, a);
    var p :| PathFromTo(FilledLinks(c, s), p, n, n) && |p| >= 2;
    PathMonotone(FilledLinks(c, s), FilledLinks(c, Do(c, s, a)), p);
    assert PathFromTo(FilledLinks(c, Do(c, s, a)), p, n, n);
  }

  lemma CyclingIsFilled(c: Config, s: State, n: string)
    requires Cycling(c, s, n)
    ensures Filled(c, s, n)
  {
    hide Filled;
    var p :| PathFromTo(FilledLinks(c, s), p, n, n) && |p| >= 2;
    assert Edge(p[0], p[1]) in FilledLinks(c, s);
  }

  /** Something in flight is at the node or has been answered so that only it follows. */
  ghost predicate Carries(c: Config, s: State, n: string) {
    || n in NodesOf(s.workCh)
    || n in NodesOf(s.busy)
    || (exists i :: 0 <= i < |s.resultCh| && RouteOf(c, s.resultCh[i]).targets == [n])
    || (s.coordinator.Scheduling? && n in s.coordinator.remaining)
  }

  ghost predicate Alive(c: Config, s: State) {
    exists n :: Cycling(c, s, n) && Carries(c, s, n)
  }

  /** Answers of cycling nodes lead to cycling nodes. */
  ghost predicate Steers(c: Config, s: State, a: Action) {
    && !a.Stop?
    && (a.Put? && a.worker < |s.busy| && Cycling(c, s, s.busy[a.worker].node) ==>
          exists u :: Cycling(c, s, u) && RouteOf(c, Item(s.busy[a.worker].node, a.out)).targets == [u])
  }

  lemma NodesWithout(items: seq<Item>, i: nat, n: string)
    requires i < |items| && n in NodesOf(items)
    ensures n == items[i].node || n in NodesOf(Without(items, i))
  {
    var k :| 0 <= k < |items| && NodesOf(items)[k] == n;
    var rest := Without(items, i);
    if k < i {
      assert NodesOf(rest)[k] == n;
    } else if k > i {
      assert NodesOf(rest)[k - 1] == n;
    }
  }

  lemma NodesAppended(items: seq<Item>, item: Item, n: string)
    ensures n in NodesOf(items + [item]) <==> n in NodesOf(items) || n == item.node
  {
    assert NodesOf(items + [item]) == NodesOf(items) + [item.node];
  }

  lemma NodesHead(items: seq<Item>, n: string)
    requires items != []
    ensures n in NodesOf(items) <==> n == items[0].node || n in NodesOf(items[1..])
  {
    assert NodesOf(items) == [items[0].node] + NodesOf(items[1..]);
  }

  lemma TakeCarries(c: Config, s: State, n: string)
    requires Enabled(c, s, Take) && Carries(c, s, n)
    ensures Carries(c, Do(c, s, Take), n)
  {
    hide NodesOf, RouteOf;
    NodesHead(s.workCh, n);
    NodesAppended(s.busy, s.workCh[0], n);
  }

  /** A put passes the token on: it stays where it is, or moves to where the answer leads. */
  lemma PutCarries(c: Config, s: State, a: Action, n: string)
    requires a.Put? && Enabled(c, s, a) && Carries(c, s, n)
    ensures Carries(c, Do(c, s, a), n) || s.busy[a.worker].node == n
    ensures forall u :: RouteOf(c, Item(s.busy[a.worker].node, a.out)).targets == [u] ==> Carries(c, Do(c, s, a), u)
  {
    hide NodesOf, RouteOf, Without;
    if n in NodesOf(s.busy) {
      NodesWithout(s.busy, a.worker, n);
    }
    var s' := Do(c, s, a);
    assert forall i :: 0 <= i < |s.resultCh| ==> s'.resultCh[i] == s.resultCh[i];
    assert s'.resultCh[|s.resultCh|] == Item(s.busy[a.worker].node, a.out);
  }

  lemma ReceiveCarries(c: Config, s: State, n: string)
    requires Enabled(c, s, Receive) && Carries(c, s, n)
    ensures Carries(c, Do(c, s, Receive), n)
  {
    hide NodesOf, RouteOf, HopsOf;
    var s' := Do(c, s, Receive);
    if i :| 0 <= i < |s.resultCh| && RouteOf(c, s.resultCh[i]).targets == [n] {
      if i > 0 {
        assert s'.resultCh[i - 1] == s.resultCh[i];
      }
    }
  }

  lemma ScheduleCarries(c: Config, s: State, n: string)
    requires Enabled(c, s, Schedule) && Carries(c, s, n) && Filled(c, s, n)
    ensures Carries(c, Do(c, s, Schedule), n)
  {
    var id, s' := s.coordinator.remaining[0], Do(c, s, Schedule);
    ScheduleHandles(c, s);
    ScheduleShape(c, s);
    assert id == n ==> Pushes(c, s);
    hide DoSchedule, Pushes, NodesOf, RouteOf, Filled, Do;
    if s'.workCh != s.workCh {
      NodesAppended(s.workCh, s'.workCh[|s.workCh|], n);
    }
    if n in s.coordinator.remaining && n != id {
      assert s.coordinator.remaining == [id] + s.coordinator.remaining[1..];
    }
  }

  lemma StepCarries(c: Config, s: State, a: Action, n: string) returns (u: string)
    requires Enabled(c, s, a) && Steers(c, s, a) && Cycling(c, s, n) && Carries(c, s, n)
    ensures Cycling(c, s, u) && Carries(c, Do(c, s, a), u)
  {
    u := n;
    match a
    case Take => TakeCarries(c, s, n);
    case Put(_, _) =>
      hide Carries, Do, RouteOf, Cycling;
      PutCarries(c, s, a, n);
      if !Carries(c, Do(c, s, a), n) {
        u :| Cycling(c, s, u) && RouteOf(c, Item(s.busy[a.worker].node, a.out)).targets == [u];
      }
    case Receive => ReceiveCarries(c, s, n);
    case Schedule =>
      CyclingIsFilled(c, s, n);
      ScheduleCarries(c, s, n);
    case Settle =>
  }

  lemma AliveStep(c: Config, s: State, a: Action)
    requires Enabled(c, s, a) && Steers(c, s, a) && Alive(c, s)
    ensures Alive(c, Do(c, s, a))
  {
    hide Do, Enabled, Steers, Carries, Cycling;
    var n :| Cycling(c, s, n) && Carries(c, s, n);
    var u := StepCarries(c, s, a, n);
    CyclingStays(c, s, a, u);
  }

  lemma AliveIsBusy(c: Config, s: State)
    requires Alive(c, s) && Balanced(c, s)
    ensures !s.coordinator.Stopped? && !Enabled(c, s, Stop)
  {
    hide Cycling, RouteOf;
    var n :| Cycling(c, s, n) && Carries(c, s, n);
  }

  /** A cycling node can answer so that the next node of its cycle follows. */
  lemma SteeredAnswer(c: Config, s: State, item: Item) returns (out: Envelope, u: string)
    requires c.Valid() && MaySteer(c) && Cycling(c, s, item.node)
    ensures c.allowed(item.node, item.env, out)
    ensures Cycling(c, s, u) && RouteOf(c, Item(item.node, out)).targets == [u]
  {
    var n := item.node;
    var p :| PathFromTo(FilledLinks(c, s), p, n, n) && |p| >= 2;
    u := p[1];
    OnCycle(FilledLinks(c, s), p, n, 1);
    assert Edge(n, u) in FilledLinks(c, s);
    assert Edge(n, u) in c.g.Links();
    hide FilledLinks, Route, Targets;
    LinkIsSuccessor(c, n, u);
    assert CanSteer(c, n, item.env, u);
    out :| c.allowed(n, item.env, out) && Route(c.g, c.g.nodes[n], out).targets == [u];
  }

  /** Where no run jams, a run with something on a filled cycle can take another step that keeps it there. */
  lemma NextStep(c: Config, actions: seq<Action>) returns (a: Action)
    requires c.Valid() && Responsive(c) && MaySteer(c) && !SomeRunJams(c)
    requires Legal(c, actions) && Alive(c, After(c, actions))
    ensures Enabled(c, After(c, actions), a) && Steers(c, After(c, actions), a)
  {
    hide Responsive, MaySteer, Alive, Play, Balanced, Jammed, Cycling, RouteOf;
    var s := After(c, actions);
    RunsStayBalanced(c, actions);
    ReachableStuckMeansJammed(c, actions);
    AliveIsBusy(c, s);
    assert !Stuck(c, s);
    a :| Enabled(c, s, a);
    if a.Put? && Cycling(c, s, s.busy[a.worker].node) {
      var out, u := SteeredAnswer(c, s, s.busy[a.worker]);
      a := Put(a.worker, out);
    }
  }

  // ----- the endless run

  ghost function Chosen(c: Config, s: State): Action {
    if exists a :: Enabled(c, s, a) && Steers(c, s, a) then
      var a :| Enabled(c, s, a) && Steers(c, s, a);
      a
    else Stop
  }

  lemma ChosenIs(c: Config, s: State, a: Action)
    requires Enabled(c, s, a) && Steers(c, s, a)
    ensures Enabled(c, s, Chosen(c, s)) && Steers(c, s, Chosen(c, s))
  {
    hide Enabled, Steers;
  }

  ghost function StateFrom(c: Config, s: State, k: nat): State {
    if k == 0 then s
    else
      var t := StateFrom(c, s, k - 1);
      if Enabled(c, t, Chosen(c, t)) then Do(c, t, Chosen(c, t)) else t
  }

  /** The given steps, then chosen ones for ever. */
  ghost function GoOn(c: Config, first: seq<Action>): nat -> Action
    requires Legal(c, first)
  {
    (k: nat) => if k < |first| then first[k] else Chosen(c, StateFrom(c, After(c, first), k - |first|))
  }

  lemma GoOnAt(c: Config, first: seq<Action>, k: nat)
    requires Legal(c, first)
    ensures GoOn(c, first)(|first| + k) == Chosen(c, StateFrom(c, After(c, first), k))
    ensures Prefix(GoOn(c, first), |first|) == first
  {
    hide Chosen, StateFrom, Play;
  }

  lemma {:induction false} GoesOn(c: Config, first: seq<Action>, k: nat)
    requires c.Valid() && Responsive(c) && MaySteer(c) && !SomeRunJams(c)
    requires Legal(c, first) && Alive(c, After(c, first))
    ensures Legal(c, Prefix(GoOn(c, first), |first| + k))
    ensures After(c, Prefix(GoOn(c, first), |first| + k)) == StateFrom(c, After(c, first), k)
    ensures Alive(c, StateFrom(c, After(c, first), k))
  {
    hide Responsive, MaySteer, SomeRunJams, Alive, Chosen, Enabled, Steers, Do, GoOn, Play;
    GoOnAt(c, first, k);
    if k > 0 {
      var n := |first| + k - 1;
      var actions := Prefix(GoOn(c, first), n);
      GoesOn(c, first, k - 1);
      GoOnAt(c, first, k - 1);
      var s := StateFrom(c, After(c, first), k - 1);
      var a := NextStep(c, actions);
      ChosenIs(c, s, a);
      AliveStep(c, s, Chosen(c, s));
      PrefixNext(GoOn(c, first), n);
      PlayStep(c, Init(c), actions, Chosen(c, s));
    }
  }

  lemma {:induction false} LegalPrefix(c: Config, actions: seq<Action>, k: nat)
    requires Legal(c, actions) && k <= |actions|
    ensures Legal(c, actions[..k])
    decreases |actions|
  {
    if k < |actions| {
      LegalPrefix(c, actions[..|actions| - 1], k);
      assert actions[..|actions| - 1][..k] == actions[..k];
    } else {
      assert actions[..k] == actions;
    }
  }

  lemma AliveIsEndless(c: Config, first: seq<Action>)
    requires c.Valid() && Responsive(c) && MaySteer(c) && !SomeRunJams(c)
    requires Legal(c, first) && Alive(c, After(c, first))
    ensures Endless(c, GoOn(c, first))
  {
    hide Responsive, MaySteer, SomeRunJams, Alive, GoOn, Play;
    forall k: nat
      ensures Legal(c, Prefix(GoOn(c, first), k))
    {
      if k < |first| {
        GoOnAt(c, first, 0);
        LegalPrefix(c, first, k);
        assert Prefix(GoOn(c, first), k) == Prefix(GoOn(c, first), |first|)[..k];
      } else {
        GoesOn(c, first, k - |first|);
      }
    }
  }

  // ----- exactly when

  /** The input that fills a merge pushes it. */
  lemma FillingPushes(c: Config, s: State, a: Action, n: string)
    requires Enabled(c, s, a) && !Filled(c, s, n) && Filled(c, Do(c, s, a), n)
    ensures Carries(c, Do(c, s, a), n)
  {
    hide ExpectedInputs, RouteOf, HopsOf;
    if a.Schedule? {
      FillingScheduled(c, s, n);
    }
    hide DoSchedule, NodesOf;
  }

  lemma FillingScheduled(c: Config, s: State, n: string)
    requires Enabled(c, s, Schedule) && !Filled(c, s, n) && Filled(c, DoSchedule(c, s), n)
    ensures n in NodesOf(DoSchedule(c, s).workCh)
  {
    var id, s' := s.coordinator.remaining[0], DoSchedule(c, s);
    ScheduleHandles(c, s);
    ScheduleShape(c, s);
    OnlyHeadCollects(c, s, n);
    if IsMerge(c, id) {
      FilledByPush(c, s);
    }
    hide DoSchedule, Pushes, NodesOf, ExpectedInputs;
    assert n == id && Pushes(c, s);
    NodesAppended(s.workCh, s'.workCh[|s.workCh|], n);
  }

  lemma OnlyHeadCollects(c: Config, s: State, n: string)
    requires s.coordinator.Scheduling? && s.coordinator.remaining != []
    ensures n != s.coordinator.remaining[0] || !IsMerge(c, n) ==>
              Lookup(DoSchedule(c, s).mergeInputs, n) == Lookup(s.mergeInputs, n)
  {
    if IsMerge(c, s.coordinator.remaining[0]) {
      MergePlan(c, s);
    }
    hide DoScheduleMerge, HopsOf, ParallelRuntime.Ready;
  }

  ghost predicate Waiting(c: Config, ring: set<string>) {
    forall n :: n in ring ==> IsMerge(c, n) && ExpectedInputs(c, n) >= 1
  }

  lemma NotFilledYet(c: Config, n: string)
    requires IsMerge(c, n) && ExpectedInputs(c, n) >= 1
    ensures !Filled(c, Init(c), n)
  {
  }

  /** When the last merge of a set is filled, it is in flight. */
  lemma {:induction false} LastFilled(c: Config, actions: seq<Action>, ring: set<string>) returns (k: nat, n: string)
    requires Legal(c, actions) && ring != {} && Waiting(c, ring) && ring <= FilledNodes(c, After(c, actions))
    ensures k <= |actions| && Legal(c, actions[..k]) && ring <= FilledNodes(c, After(c, actions[..k]))
    ensures n in ring && Carries(c, After(c, actions[..k]), n)
  {
    hide Carries, ExpectedInputs;
    n :| n in ring;
    NotFilledYet(c, n);
    assert n in FilledNodes(c, After(c, actions));
    assert actions != [];
    var front, a := actions[..|actions| - 1], actions[|actions| - 1];
    var s := After(c, front);
    if ring <= FilledNodes(c, s) {
      k, n := LastFilled(c, front, ring);
      assert front[..k] == actions[..k];
    } else {
      hide Do, Enabled, Play, Filled, IsMerge;
      n :| n in ring && n !in FilledNodes(c, s);
      assert n in FilledNodes(c, After(c, actions));
      FillingPushes(c, s, a, n);
      k := |actions|;
      assert actions[..k] == actions;
    }
  }

  lemma CycleWaits(c: Config, live: set<string>, p: seq<string>, v: string)
    requires PathFromTo(MergeLinksIn(c, live), p, v, v) && |p| >= 2
    ensures Waiting(c, Elements(p)) && Elements(p) <= live
  {
    forall n | n in p
      ensures IsMerge(c, n) && ExpectedInputs(c, n) >= 1 && n in live
    {
      var i :| 0 <= i < |p| && p[i] == n;
      var j := if i == 0 then |p| - 1 else i;
      assert Edge(p[j - 1], p[j]) in MergeLinksIn(c, live);
      TargetsMembership(c.g.edges, p[j - 1], n);
    }
  }

  lemma CycleInRing(c: Config, live: set<string>, p: seq<string>, v: string)
    requires PathFromTo(MergeLinksIn(c, live), p, v, v) && |p| >= 2
    ensures PathFromTo(MergeLinksIn(c, Elements(p)), p, v, v)
  {
    forall i, j | 0 <= i < j < |p| && j == i + 1
      ensures Edge(p[i], p[j]) in MergeLinksIn(c, Elements(p))
    {
      assert Edge(p[i], p[j]) in MergeLinksIn(c, live);
    }
  }

  /** A run that fills a cycle of merges passes a state in which something is on it. */
  lemma FilledCycleComesAlive(c: Config, actions: seq<Action>) returns (k: nat)
    requires Legal(c, actions) && Cyclic(FilledLinks(c, After(c, actions)))
    ensures k <= |actions| && Legal(c, actions[..k]) && Alive(c, After(c, actions[..k]))
  {
    var live := FilledNodes(c, After(c, actions));
    var v :| ReachesPlus(MergeLinksIn(c, live), v, v);
    var p :| PathFromTo(MergeLinksIn(c, live), p, v, v) && |p| >= 2;
    hide Play, FilledNodes, MergeLinksIn, Carries, IsPath;
    CycleWaits(c, live, p, v);
    CycleInRing(c, live, p, v);
    assert p[0] in Elements(p);
    var n;
    k, n := LastFilled(c, actions, Elements(p));
    StillOnCycle(c, After(c, actions[..k]), p, v, n);
  }

  lemma StillOnCycle(c: Config, s: State, p: seq<string>, v: string, n: string)
    requires PathFromTo(MergeLinksIn(c, Elements(p)), p, v, v) && |p| >= 2
    requires Elements(p) <= FilledNodes(c, s) && n in Elements(p)
    ensures Cycling(c, s, n)
  {
    PathMonotone(MergeLinksIn(c, Elements(p)), FilledLinks(c, s), p);
    var i :| 0 <= i < |p| && p[i] == n;
    OnCycle(FilledLinks(c, s), p, v, i);
  }

  ghost predicate SomeRunFillsACycle(c: Config) {
    exists actions :: Legal(c, actions) && Cyclic(FilledLinks(c, After(c, actions)))
  }

  /**
   Where no run jams and nodes may choose a single successor, an endless run exists if and only if some
   run fills every merge of a cycle of merges, however many inputs they wait for.
   */
  lemma EndlessIffCycleFilled(c: Config)
    requires c.Valid() && Responsive(c) && MaySteer(c) && !SomeRunJams(c)
    ensures (exists actions :: Endless(c, actions)) <==> SomeRunFillsACycle(c)
  {
    hide Responsive, MaySteer, SomeRunJams, Cyclic, FilledLinks, Alive, Legal;
    if actions :| Endless(c, actions) {
      var k := EndlessFillsACycle(c, actions);
    }
    if SomeRunFillsACycle(c) {
      var actions :| Legal(c, actions) && Cyclic(FilledLinks(c, After(c, actions)));
      var k := FilledCycleComesAlive(c, actions);
      AliveIsEndless(c, actions[..k]);
    }
  }
}
