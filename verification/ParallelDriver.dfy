/** Whole runs of the parallel engine's code, under any scheduler. */
module ParallelDriver {
  import opened Sequences
  import opened Digraphs
  import opened Envelopes
  import opened Merging
  import opened ParallelRuntime
  import opened ParallelEngine
  import opened ParallelTermination
  import opened ParallelExactlyOnce
  import opened ParallelCompletion
  import opened ParallelConfluence

  /** What each node answers when the scheduler leaves it open. */
  type Answer = (string, Envelope) -> Envelope

  ghost predicate Answers(c: Config, answer: Answer) {
    forall id, env :: c.allowed(id, env, answer(id, env))
  }

  lemma AnswersRespond(c: Config, answer: Answer)
    requires Answers(c, answer)
    ensures Responsive(c)
  {
    forall id, env
      ensures CanAnswer(c, id, env)
    {
      assert c.allowed(id, env, answer(id, env));
    }
  }

  /** The wished step if it is possible, otherwise some possible step; none only when the engine is stuck. */
  method PickStep(c: Config, engine: Engine, wish: Action, answer: Answer) returns (a: Option<Action>)
    requires Answers(c, answer)
    ensures a.Some? ==> Enabled(c, engine.View(), a.value)
    ensures a.None? ==> Stuck(c, engine.View())
    ensures Enabled(c, engine.View(), wish) ==> a == Some(wish)
  {
    var first := if engine.busy == [] then Take else Put(0, answer(engine.busy[0].node, engine.busy[0].env));
    var options := [wish, Take, first, Receive, Schedule, Settle, Stop];
    assert options[0] == wish && options[1] == Take && options[2] == first && options[3] == Receive
      && options[4] == Schedule && options[5] == Settle && options[6] == Stop;
    var i := 0;
    while i < |options|
      invariant 0 <= i <= |options|
      invariant forall k :: 0 <= k < i ==> !Enabled(c, engine.View(), options[k])
    {
      var ok := engine.CanStep(c, options[i]);
      if ok {
        return Some(options[i]);
      }
      i := i + 1;
    }
    OptionsSuffice(c, engine.View(), first, answer);
    a := None;
  }

  lemma OptionsSuffice(c: Config, s: State, first: Action, answer: Answer)
    requires Answers(c, answer)
    requires s.busy != [] ==> first == Put(0, answer(s.busy[0].node, s.busy[0].env))
    requires !Enabled(c, s, Take) && !Enabled(c, s, first) && !Enabled(c, s, Receive)
    requires !Enabled(c, s, Schedule) && !Enabled(c, s, Settle) && !Enabled(c, s, Stop)
    ensures Stuck(c, s)
  {
    hide Pushes;
  }

  method Perform(c: Config, engine: Engine, a: Action)
    requires Enabled(c, engine.View(), a)
    modifies engine
    ensures engine.View() == Do(c, old(engine.View()), a)
  {
    hide Do, Enabled;
    match a
    case Take => engine.TakeWork(c);
    case Put(worker, out) => engine.PutResult(c, worker, out);
    case Receive => engine.ReceiveResult(c);
    case Schedule => engine.ScheduleSuccessor(c);
    case Settle => engine.SettleResult(c);
    case Stop => var result := engine.Return(c);
  }

  /** The state a run of the engine's code ends in: reached by a legal interleaving, with no step left. */
  ghost predicate EndsIn(c: Config, actions: seq<Action>, s: State) {
    Legal(c, actions) && After(c, actions) == s && Stuck(c, s)
  }

  /**
   Runs the engine until nothing more can happen, taking the wished step whenever it is possible. It
   always ends, on every graph without a cycle of merges only.
   */
  method Drive(c: Config, engine: Engine, wishes: nat -> Action, answer: Answer) returns (ghost actions: seq<Action>)
    requires c.Valid() && !Cyclic(MergeLinks(c)) && Answers(c, answer)
    requires engine.View() == Init(c)
    modifies engine
    ensures EndsIn(c, actions, engine.View())
  {
    ghost var w := WeightsExist(c, c.g.nodes.Keys);
    hide MeasureOf, WeighsAll, Do, Enabled, Known, Answers, Stuck, Play, Live;
    StartIsKnown(c);
    actions := [];
    var n, running := 0, true;
    while running
      invariant Legal(c, actions) && After(c, actions) == engine.View() && Known(c, engine.View())
      invariant !running ==> Stuck(c, engine.View())
      decreases MeasureOf(c, w, engine.View()).hopsLeft, MeasureOf(c, w, engine.View()).weight,
                MeasureOf(c, w, engine.View()).coordinator, MeasureOf(c, w, engine.View()).effort, running
    {
      var a := PickStep(c, engine, wishes(n), answer);
      if a.None? {
        running := false;
      } else {
        EveryNodeIsLive(c, engine.View());
        EveryNodeIsLive(c, Do(c, engine.View(), a.value));
        StepDecreases(c, c.g.nodes.Keys, w, engine.View(), a.value);
        KnownStep(c, engine.View(), a.value);
        PlayStep(c, Init(c), actions, a.value);
        Perform(c, engine, a.value);
        actions := actions + [a.value];
        n := n + 1;
      }
    }
  }

  lemma StartIsKnown(c: Config)
    requires c.Valid()
    ensures Known(c, Init(c)) && Legal(c, []) && After(c, []) == Init(c)
  {
  }

  ghost predicate UniqueSink(c: Config, sink: string) {
    sink in c.g.nodes && forall id :: id in c.g.nodes && id != sink ==> c.g.Successors(id) != []
  }

  /**
   The whole parallel run, under any scheduler. It returns unless it jams; on joined graphs a run that
   returns has executed every node exactly once, predecessors first, and a unique sink's result is what
   it returns; and where no more than 5 * concurrency nodes are independent of each other it does return.
   */
  method RunParallel(c: Config, wishes: nat -> Action, answer: Answer)
    returns (result: Option<Envelope>, ghost actions: seq<Action>, ghost s: State)
    requires c.Valid() && !Cyclic(MergeLinks(c)) && Answers(c, answer)
    ensures EndsIn(c, actions, s)
    ensures result.None? <==> Jammed(c, s)
    ensures result.Some? ==> result == if s.final.Some? then s.final else Some(c.start)
    ensures Joined(c) && result.Some? ==>
              && NoDup(s.started) && Elements(s.started) == c.g.nodes.Keys
              && NoDup(s.processed) && EdgesPointForward(c.g.Links(), s.processed)
    ensures forall sink :: Joined(c) && result.Some? && UniqueSink(c, sink) ==>
              sink in s.outputs && result == Some(s.outputs[sink])
    ensures Joined(c) && Narrow(c) ==> result.Some?
  {
    var engine := new Engine(c);
    actions := Drive(c, engine, wishes, answer);
    s := engine.View();
    RunOutcome(c, actions, s, answer);
    result := if engine.coordinator.Stopped? then Some(if engine.final.Some? then engine.final.value else c.start) else None;
  }

  lemma RunOutcome(c: Config, actions: seq<Action>, s: State, answer: Answer)
    requires c.Valid() && Answers(c, answer) && EndsIn(c, actions, s)
    ensures Jammed(c, s) <==> !s.coordinator.Stopped?
    ensures Joined(c) && s.coordinator.Stopped? ==>
              && NoDup(s.started) && Elements(s.started) == c.g.nodes.Keys
              && NoDup(s.processed) && EdgesPointForward(c.g.Links(), s.processed)
    ensures forall sink :: Joined(c) && s.coordinator.Stopped? && UniqueSink(c, sink) ==>
              sink in s.outputs && s.final == Some(s.outputs[sink])
    ensures Joined(c) && Narrow(c) ==> s.coordinator.Stopped?
  {
    AnswersRespond(c, answer);
    hide Joined, Stuck, NoDup, EdgesPointForward, Narrow;
    ReachableStuckMeansJammed(c, actions);
    if Joined(c) && s.coordinator.Stopped? {
      ExactlyOnce(c, actions);
      forall sink | UniqueSink(c, sink)
        ensures sink in s.outputs && s.final == Some(s.outputs[sink])
      {
        ReturnsSinkResult(c, actions, sink);
      }
    }
    if Joined(c) && Narrow(c) {
      NarrowGraphsComplete(c, actions);
    }
  }

  /**
   With deterministic nodes and harmless merges, whatever the scheduler wishes, a run that returns gives
   the sink's result in a one-pass evaluation of the graph.
   */
  method RunDeterministic(c: Config, f: NodeFunction, ghost config: string -> MergeConfig, ghost order: seq<string>, ghost sink: string,
                          wishes: nat -> Action)
    returns (result: Option<Envelope>)
    requires Joined(c) && Deterministic(c, f) && NeverRecordsErrors(c, f) && UsesJsonMerge(c, config)
    requires IsTopological(c.g.Links(), order) && Elements(order) == c.g.nodes.Keys
    requires HarmlessAtMerges(c, config, Evaluated(c, f, order)) && UniqueSink(c, sink)
    ensures sink in Evaluated(c, f, order)
    ensures result.Some? ==> result == Some(Evaluated(c, f, order)[sink])
    ensures Narrow(c) ==> result.Some?
  {
    ghost var val := Evaluated(c, f, order);
    HarmlessMergesSettle(c, config, val);
    EvaluationSolves(c, f, config, order);
    JoinedHasNoMergeCycle(c);
    hide Evaluated, Solves, SettledAtMerges, HarmlessAtMerges, Jammed, Narrow;
    ghost var actions, s;
    result, actions, s := RunParallel(c, wishes, f);
    if result.Some? {
      AnswersRespond(c, f);
      ReachableStuckMeansJammed(c, actions);
      EveryRunFindsSolution(c, f, val, actions, sink);
    }
  }
}
