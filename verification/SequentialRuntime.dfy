/**
 The sequential engine: a FIFO worklist with per-node hop counters. Nodes, the step controller and
 cancellation are oracles indexed by the iteration, so every behaviour of theirs is covered.
 */
module SequentialRuntime {
  import opened Sequences
  import opened Kahn
  import opened Graphs
  import opened Envelopes
  import opened Events
  import opened Worklists

  datatype StepAction = Continue | SkipNode | Abort | RunToBreakpoint

  /** A controller that does not pause here, fails, or answers with an action and envelope changes. */
  datatype StepReply =
    | Unpaused
    | ControllerFailed
    | Replied(action: StepAction, changes: Option<Changes>)

  datatype Changes = Changes(setVars: Vars, deleteVars: set<string>)

  /** One call of a node: its result or an error, what it did to the envelope it was given, and its own events. */
  datatype NodeRun = NodeRun(result: Option<Envelope>, touched: Envelope, outputs: nat)

  /** What the run cannot control, per iteration. Without a step controller the replies are not consulted. */
  datatype World = World(
    run: (nat, Node, Envelope) -> NodeRun,
    controlled: bool,
    before: nat -> StepReply,
    after: nat -> StepReply,
    cancelled: nat -> bool)

  datatype Options = Options(maxHops: int, continueOnError: bool)

  datatype Outcome =
    | Completed
    | Cancelled
    | ControllerError
    | Aborted
    | NodeFailure(id: string)

  function FlowOf(g: Graph): Flow<string> {
    Flow(g.edges, g.entry)
  }

  function HopCount(hopCount: map<string, nat>, id: string): nat {
    if id in hopCount then hopCount[id] else 0
  }

  ghost predicate NeverSkips(world: World) {
    world.controlled ==> forall t :: !(world.before(t).Replied? && world.before(t).action == SkipNode)
  }

  /** Neither nodes nor controller ever ask for a redirect. */
  ghost predicate NeverRedirects(world: World) {
    && (forall t, node, env ::
          Unrouted(env) ==> Unrouted(world.run(t, node, env).touched)
                            && (world.run(t, node, env).result.Some? ==> Unrouted(world.run(t, node, env).result.value)))
    && (forall t, c :: world.before(t).Replied? && world.before(t).changes == Some(c) ==> GATE_REDIRECT !in c.setVars)
  }

  /** No router nodes and no redirects. */
  ghost predicate NeverRoutes(g: Graph, world: World) {
    && (forall id :: id in g.nodes ==> !g.nodes[id].kind.Router?)
    && NeverRedirects(world)
  }

  /** The emitter's trace is well-formed so far and no node is in progress. */
  ghost predicate Settled(emitter: Emitter)
    reads emitter
  {
    emitter.Valid() && PhaseAfter(emitter.Trace()) == Between
  }

  /** Emits an event and says how the trace moves on. */
  method Record(emitter: Emitter, kind: EventKind)
    requires emitter.Valid()
    modifies emitter
    ensures emitter.Valid() && emitter.Trace() == old(emitter.Trace()) + [kind]
    ensures PhaseAfter(emitter.Trace()) == Advance(PhaseAfter(old(emitter.Trace())), kind)
    ensures Started(emitter.Trace()) == Started(old(emitter.Trace())) + if kind.NodeStarted? then [kind.node] else []
  {
    Emitted(emitter.Trace(), kind);
    emitter.Emit(kind);
  }

  /** Emits a between-nodes event. */
  method Announce(emitter: Emitter, kind: EventKind)
    requires Settled(emitter)
    requires kind.RouteDecision? || kind.StepPaused? || kind.StepResumed? || kind.StepSkipped? || kind.StepAborted?
    modifies emitter
    ensures Settled(emitter) && emitter.Trace() == old(emitter.Trace()) + [kind]
    ensures Started(emitter.Trace()) == Started(old(emitter.Trace()))
  {
    Record(emitter, kind);
  }

  // ----- what one iteration does

  /** The events of one execution: started, the node's own output, and finished or failed. */
  function NodeEvents(id: string, run: NodeRun): seq<EventKind> {
    [NodeStarted(id)] + seq(run.outputs, _ => NodeOutput(id))
    + [if run.result.None? then NodeFailed(id) else NodeFinished(id)]
  }

  function StepEvents(world: World, reply: StepReply, id: string): seq<EventKind> {
    if !world.controlled || reply.Unpaused? then []
    else if reply.ControllerFailed? then [StepPaused(id)] else [StepPaused(id), StepResumed(id)]
  }

  function ActionOf(world: World, reply: StepReply): StepAction {
    if !world.controlled || reply.Unpaused? then Continue
    else if reply.ControllerFailed? then Abort else reply.action
  }

  function RouteEvents(g: Graph, node: Node, env: Envelope): seq<EventKind> {
    var announced := Route(g, node, env).announced;
    if announced.Some? then [RouteDecision(node.id, announced.value)] else []
  }

  function ShouldSkipVisited(id: string, visited: set<string>, hopCount: map<string, nat>, maxHops: nat): bool {
    if id !in visited || HopCount(hopCount, id) == 0 then false else HopCount(hopCount, id) >= maxHops
  }

  /** Runs one node between its node.started and its node.finished or node.failed. */
  method ExecuteNode(world: World, tick: nat, node: Node, env: Envelope, emitter: Emitter) returns (run: NodeRun)
    requires Settled(emitter)
    modifies emitter
    ensures Settled(emitter)
    ensures run == world.run(tick, node, env)
    ensures emitter.Trace() == old(emitter.Trace()) + NodeEvents(node.id, run)
    ensures Started(emitter.Trace()) == Started(old(emitter.Trace())) + [node.id]
  {
    hide Started, PhaseAfter, Kinds, Emitter.Valid;
    Record(emitter, NodeStarted(node.id));
    run := world.run(tick, node, env);
    var i := 0;
    while i < run.outputs
      invariant 0 <= i <= run.outputs
      invariant emitter.Trace() == old(emitter.Trace()) + ([NodeStarted(node.id)] + seq(i, _ => NodeOutput(node.id)))
      invariant emitter.Valid() && PhaseAfter(emitter.Trace()) == Inside(node.id)
      invariant Started(emitter.Trace()) == Started(old(emitter.Trace())) + [node.id]
    {
      Record(emitter, NodeOutput(node.id));
      i := i + 1;
      assert seq(i, _ => NodeOutput(node.id)) == seq(i - 1, _ => NodeOutput(node.id)) + [NodeOutput(node.id)];
    }
    var closing := if run.result.None? then NodeFailed(node.id) else NodeFinished(node.id);
    Record(emitter, closing);
  }

  function Apply(env: Envelope, changes: Changes): Envelope {
    env.(vars := (env.vars + changes.setVars) - changes.deleteVars)
  }

  /** One interaction with the step controller: paused, then resumed unless the controller fails. */
  method HandleStepPoint(world: World, reply: StepReply, id: string, emitter: Emitter)
    returns (failed: bool, action: StepAction, changes: Option<Changes>)
    requires Settled(emitter)
    modifies emitter
    ensures Settled(emitter)
    ensures emitter.Trace() == old(emitter.Trace()) + StepEvents(world, reply, id)
    ensures Started(emitter.Trace()) == Started(old(emitter.Trace()))
    ensures failed <==> world.controlled && reply.ControllerFailed?
    ensures action == ActionOf(world, reply)
    ensures changes == if world.controlled && reply.Replied? && reply.action == Continue then reply.changes else None
  {
    if !world.controlled || reply.Unpaused? {
      return false, Continue, None;
    }
    Announce(emitter, StepPaused(id));
    if reply.ControllerFailed? {
      return true, Abort, None;
    }
    Announce(emitter, StepResumed(id));
    return false, reply.action, if reply.action == Continue then reply.changes else None;
  }

  /** Chooses the successors, announcing a gate's or router's decision. */
  method DetermineSuccessors(g: Graph, node: Node, env: Envelope, emitter: Emitter)
    returns (targets: seq<string>, env': Envelope)
    requires Settled(emitter)
    modifies emitter
    ensures Settled(emitter)
    ensures emitter.Trace() == old(emitter.Trace()) + RouteEvents(g, node, env)
    ensures Started(emitter.Trace()) == Started(old(emitter.Trace()))
    ensures targets == Route(g, node, env).targets && env' == Route(g, node, env).env
    ensures FollowedBy(g, node, env, targets) && ClearsHint(g, node, env, env')
    ensures emitter.Trace() == old(emitter.Trace()) + Decided(g, node, env)
  {
    RouteFollows(g, node, env);
    DecidedIsAnnounced(g, node, env);
    hide FollowedBy, ClearsHint, Decided;
    var r := Route(g, node, env);
    if r.announced.Some? {
      Announce(emitter, RouteDecision(node.id, r.announced.value));
    }
    targets, env' := r.targets, r.env;
  }

  /** The envelope to go on with after a node ran, or the failure that ends the run. */
  function ResolveOutcome(run: NodeRun, id: string, attempt: nat, options: Options): Result<Envelope, Outcome> {
    if run.result.Some? then Ok(run.result.value)
    else if !options.continueOnError then Err(NodeFailure(id))
    else Ok(run.touched.(errors := run.touched.errors + [NodeError(id, attempt)]))
  }

  /** Everything a processed node leaves behind, or the outcome that ends the run. */
  datatype Turn = Turn(stop: Option<Outcome>, env: Envelope, targets: seq<string>, ran: bool, events: seq<EventKind>)

  /** The envelope a node starts from: with the changes of a controller that says to continue. */
  function Adjusted(world: World, tick: nat, current: Envelope): Envelope {
    var reply := world.before(tick);
    if world.controlled && reply.Replied? && reply.action == Continue && reply.changes.Some?
    then Apply(current, reply.changes.value) else current
  }

  /** One iteration for a node with hops left: step point, execution, step point, routing. */
  function TurnOf(g: Graph, options: Options, world: World, tick: nat, node: Node, attempt: nat, current: Envelope): Turn {
    var before, env := world.before(tick), Adjusted(world, tick, current);
    var events := StepEvents(world, before, node.id);
    if world.controlled && before.ControllerFailed? then Turn(Some(ControllerError), env, [], false, events)
    else if ActionOf(world, before) == Abort then Turn(Some(Aborted), env, [], false, events + [StepAborted(node.id)])
    else if ActionOf(world, before) == SkipNode then
      Turn(None, Route(g, node, env).env, Route(g, node, env).targets, false,
           events + [StepSkipped(node.id)] + RouteEvents(g, node, env))
    else Executed(g, options, world, tick, node, attempt, env, events)
  }

  /** The part of an iteration from the execution on. */
  function Executed(g: Graph, options: Options, world: World, tick: nat, node: Node, attempt: nat, env: Envelope,
                    before: seq<EventKind>): Turn
  {
    var run, after := world.run(tick, node, env), world.after(tick);
    var events := before + NodeEvents(node.id, run) + StepEvents(world, after, node.id);
    if world.controlled && after.ControllerFailed? then Turn(Some(ControllerError), run.touched, [], true, events)
    else if ActionOf(world, after) == Abort then
      Turn(Some(Aborted), run.touched, [], true, events + [StepAborted(node.id)])
    else
      var resolved := ResolveOutcome(run, node.id, attempt, options);
      if resolved.Err? then Turn(Some(resolved.error), run.touched, [], true, events)
      else
        Turn(None, Route(g, node, resolved.value).env, Route(g, node, resolved.value).targets, true,
             events + RouteEvents(g, node, resolved.value))
  }

  /** The envelope an iteration hands on, or the outcome that ends the run. */
  function Handed(g: Graph, options: Options, world: World, tick: nat, node: Node, attempt: nat, current: Envelope)
    : Result<Envelope, Outcome>
  {
    var turn := TurnOf(g, options, world, tick, node, attempt, current);
    if turn.stop.Some? then Err(turn.stop.value) else Ok(turn.env)
  }

  /**
   The envelope threaded through the processed nodes in log order, each receiving what the one before
   left: the t-th processed node runs as iteration t, with its own hop number as attempt.
   */
  ghost function Threaded(g: Graph, options: Options, world: World, maxHops: nat, popped: seq<string>, env: Envelope)
    : Result<Envelope, Outcome>
  {
    if popped == [] then Ok(env)
    else
      var front, id := popped[..|popped| - 1], popped[|popped| - 1];
      var current := Threaded(g, options, world, maxHops, front, env);
      if current.Err? || Occurrences(front, id) >= maxHops || id !in g.nodes then current
      else Handed(g, options, world, |Attempted(front, maxHops)|, g.nodes[id], Occurrences(front, id) + 1, current.value)
  }

  lemma ThreadedStep(g: Graph, options: Options, world: World, maxHops: nat, popped: seq<string>, env: Envelope, id: string)
    ensures Threaded(g, options, world, maxHops, popped + [id], env)
         == var current := Threaded(g, options, world, maxHops, popped, env);
            if current.Err? || Occurrences(popped, id) >= maxHops || id !in g.nodes then current
            else Handed(g, options, world, |Attempted(popped, maxHops)|, g.nodes[id], Occurrences(popped, id) + 1,
                        current.value)
  {
    TakeOfAppend(popped, id, 0);
  }

  // ----- what is handed from node to node

  /** The controller tells the node to go on with these changes. */
  ghost predicate IsChanged(world: World, tick: nat, changes: Changes) {
    world.controlled && world.before(tick) == Replied(Continue, Some(changes))
  }

  /** Variable by variable: what is set and not deleted has its new value, what is deleted is gone, the rest is kept. */
  ghost predicate IsChangedBy(env: Envelope, changes: Changes, start: Envelope) {
    && start.errors == env.errors
    && (forall k :: k in changes.setVars && k !in changes.deleteVars ==>
          k in start.vars && start.vars[k] == changes.setVars[k])
    && (forall k :: k in changes.deleteVars ==> k !in start.vars)
    && (forall k :: k !in changes.setVars && k !in changes.deleteVars ==>
          (k in start.vars <==> k in env.vars) && (k in env.vars ==> start.vars[k] == env.vars[k]))
  }

  /** The envelope a node starts from. */
  ghost predicate StartsFrom(world: World, tick: nat, env: Envelope, start: Envelope) {
    && (forall changes :: IsChanged(world, tick, changes) ==> IsChangedBy(env, changes, start))
    && ((forall changes :: !IsChanged(world, tick, changes)) ==> start == env)
  }

  ghost predicate SkippedAt(world: World, tick: nat) {
    world.controlled && world.before(tick).Replied? && world.before(tick).action == SkipNode
  }

  /** What a node leaves: its result, or what it touched with one more error that names it and its hop. */
  ghost predicate Leaves(options: Options, run: NodeRun, id: string, attempt: nat, left: Envelope) {
    if run.result.Some? then left == run.result.value
    else
      && options.continueOnError
      && left.vars == run.touched.vars
      && |left.errors| == |run.touched.errors| + 1 && run.touched.errors <= left.errors
      && left.errors[|run.touched.errors|] == NodeError(id, attempt)
  }

  /** What one iteration makes of the envelope it is given, and which nodes it sends it to. */
  ghost predicate HandsOn(g: Graph, options: Options, world: World, tick: nat, node: Node, attempt: nat, env: Envelope,
                          env': Envelope, targets: seq<string>)
  {
    exists start, left ::
      && StartsFrom(world, tick, env, start)
      && (if SkippedAt(world, tick) then left == start
          else Leaves(options, world.run(tick, node, start), node.id, attempt, left))
      && ClearsHint(g, node, left, env') && FollowedBy(g, node, left, targets)
  }

  lemma AdjustedStarts(world: World, tick: nat, current: Envelope)
    ensures StartsFrom(world, tick, current, Adjusted(world, tick, current))
  {
    var reply := world.before(tick);
    if reply.Replied? && reply.changes.Some? && reply.action == Continue {
      assert world.controlled ==> IsChanged(world, tick, reply.changes.value);
    }
  }

  /** A followed redirect announces its target and a decision what it names; nothing else is announced. */
  ghost function Decided(g: Graph, node: Node, left: Envelope): seq<EventKind> {
    if Redirects(g, node, left) then [RouteDecision(node.id, [left.vars["__gate_redirect__"].text])]
    else if Decides(node, left) && g.Successors(node.id) != [] then
      [RouteDecision(node.id, left.vars[node.id + "_decision"].targets)]
    else []
  }

  lemma DecidedIsAnnounced(g: Graph, node: Node, left: Envelope)
    ensures RouteEvents(g, node, left) == Decided(g, node, left)
  {
    if Redirects(g, node, left) {
      RedirectWins(g, node, left);
    } else if !Decides(node, left) || g.Successors(node.id) == [] {
      OtherwiseAllFollow(g, node, left);
    } else {
      var at := DecisionFilters(g, node, left);
    }
  }

  /** Every iteration that goes on hands its envelope on in this way. */
  lemma TurnHandsOn(g: Graph, options: Options, world: World, tick: nat, node: Node, attempt: nat, current: Envelope)
    ensures var turn := TurnOf(g, options, world, tick, node, attempt, current);
            turn.stop.None? ==> HandsOn(g, options, world, tick, node, attempt, current, turn.env, turn.targets)
  {
    var start := Adjusted(world, tick, current);
    AdjustedStarts(world, tick, current);
    var run := world.run(tick, node, start);
    var resolved := ResolveOutcome(run, node.id, attempt, options);
    var left := if SkippedAt(world, tick) || resolved.Err? then start else resolved.value;
    RouteFollows(g, node, left);
    assert resolved.Ok? ==> Leaves(options, run, node.id, attempt, resolved.value);
    hide Route, NodeEvents, StepEvents, RouteEvents, StartsFrom, ClearsHint, FollowedBy, Leaves, Adjusted, ResolveOutcome;
  }

  /**
   The run unfolds along its log: a node at its hop limit changes nothing and sends nothing on; every other
   node, on its own hop, takes the envelope to the next one and is followed by the targets logged for it.
   */
  ghost predicate UnfoldsAt(g: Graph, options: Options, world: World, maxHops: nat, popped: seq<string>,
                            appended: seq<seq<string>>, envs: seq<Envelope>, k: nat)
    requires k < |popped| == |appended| && |envs| == |popped| + 1
  {
    if Occurrences(popped[..k], popped[k]) >= maxHops then envs[k + 1] == envs[k] && appended[k] == []
    else
      && popped[k] in g.nodes
      && HandsOn(g, options, world, |Attempted(popped[..k], maxHops)|, g.nodes[popped[k]],
                 Occurrences(popped[..k], popped[k]) + 1, envs[k], envs[k + 1], appended[k])
  }

  ghost predicate Unfolds(g: Graph, options: Options, world: World, maxHops: nat, popped: seq<string>,
                          appended: seq<seq<string>>, envs: seq<Envelope>)
  {
    && |popped| == |appended| && |envs| == |popped| + 1
    && forall k: nat :: k < |popped| ==> UnfoldsAt(g, options, world, maxHops, popped, appended, envs, k)
  }

  /** From the envelope the run was given to the one it ends with. */
  ghost predicate Unfolded(g: Graph, options: Options, world: World, maxHops: nat, popped: seq<string>,
                           appended: seq<seq<string>>, env: Envelope, current: Envelope)
  {
    exists envs ::
      Unfolds(g, options, world, maxHops, popped, appended, envs) && envs[0] == env && envs[|popped|] == current
  }

  lemma UnfoldedStart(g: Graph, options: Options, world: World, maxHops: nat, env: Envelope)
    ensures Unfolded(g, options, world, maxHops, [], [], env, env)
  {
    assert Unfolds(g, options, world, maxHops, [], [], [env]);
  }

  lemma UnfoldsStep(g: Graph, options: Options, world: World, maxHops: nat, popped: seq<string>,
                    appended: seq<seq<string>>, envs: seq<Envelope>, id: string, targets: seq<string>, env: Envelope)
    requires Unfolds(g, options, world, maxHops, popped, appended, envs)
    requires if Occurrences(popped, id) >= maxHops then env == envs[|popped|] && targets == []
             else
               && id in g.nodes
               && HandsOn(g, options, world, |Attempted(popped, maxHops)|, g.nodes[id], Occurrences(popped, id) + 1,
                          envs[|popped|], env, targets)
    ensures Unfolds(g, options, world, maxHops, popped + [id], appended + [targets], envs + [env])
  {
    hide HandsOn, Attempted, Occurrences;
    var popped', appended', envs' := popped + [id], appended + [targets], envs + [env];
    forall k: nat | k < |popped'|
      ensures UnfoldsAt(g, options, world, maxHops, popped', appended', envs', k)
    {
      if k < |popped| {
        assert UnfoldsAt(g, options, world, maxHops, popped, appended, envs, k);
        assert popped'[..k] == popped[..k];
      } else {
        assert popped'[..k] == popped;
      }
    }
  }

  lemma UnfoldedStep(g: Graph, options: Options, world: World, maxHops: nat, popped: seq<string>,
                     appended: seq<seq<string>>, env: Envelope, current: Envelope, id: string, targets: seq<string>,
                     next: Envelope)
    requires Unfolded(g, options, world, maxHops, popped, appended, env, current)
    requires if Occurrences(popped, id) >= maxHops then next == current && targets == []
             else
               && id in g.nodes
               && HandsOn(g, options, world, |Attempted(popped, maxHops)|, g.nodes[id], Occurrences(popped, id) + 1,
                          current, next, targets)
    ensures Unfolded(g, options, world, maxHops, popped + [id], appended + [targets], env, next)
  {
    hide HandsOn, Attempted, Occurrences, UnfoldsAt;
    var envs :|
      Unfolds(g, options, world, maxHops, popped, appended, envs) && envs[0] == env && envs[|popped|] == current;
    UnfoldsStep(g, options, world, maxHops, popped, appended, envs, id, targets, next);
    var envs' := envs + [next];
    assert envs'[0] == env && envs'[|popped + [id]|] == next;
  }

  /** The k-th processed node, on its own hop, takes the k-th envelope to the next. */
  ghost predicate HandsOver(g: Graph, options: Options, world: World, ids: seq<string>, envs: seq<Envelope>,
                            sent: seq<seq<string>>, k: nat)
    requires k < |ids| == |sent| && |envs| == |ids| + 1
  {
    && ids[k] in g.nodes
    && HandsOn(g, options, world, k, g.nodes[ids[k]], Occurrences(ids[..k], ids[k]) + 1, envs[k], envs[k + 1], sent[k])
  }

  ghost predicate HandedOver(g: Graph, options: Options, world: World, ids: seq<string>, envs: seq<Envelope>,
                             sent: seq<seq<string>>)
  {
    && |envs| == |ids| + 1 && |sent| == |ids|
    && forall k: nat :: k < |ids| ==> HandsOver(g, options, world, ids, envs, sent, k)
  }

  lemma HandedOverStep(g: Graph, options: Options, world: World, ids: seq<string>, envs: seq<Envelope>,
                       sent: seq<seq<string>>, id: string, env: Envelope, targets: seq<string>)
    requires HandedOver(g, options, world, ids, envs, sent) && id in g.nodes
    requires HandsOn(g, options, world, |ids|, g.nodes[id], Occurrences(ids, id) + 1, envs[|ids|], env, targets)
    ensures HandedOver(g, options, world, ids + [id], envs + [env], sent + [targets])
  {
    hide HandsOn, Occurrences;
    var ids', envs', sent' := ids + [id], envs + [env], sent + [targets];
    forall k: nat | k < |ids'|
      ensures HandsOver(g, options, world, ids', envs', sent', k)
    {
      if k < |ids| {
        assert HandsOver(g, options, world, ids, envs, sent, k);
        assert ids'[..k] == ids[..k];
      } else {
        assert ids'[..k] == ids;
      }
    }
  }

  lemma UnfoldsFront(g: Graph, options: Options, world: World, maxHops: nat, popped: seq<string>,
                     appended: seq<seq<string>>, envs: seq<Envelope>)
    requires Unfolds(g, options, world, maxHops, popped, appended, envs) && popped != []
    ensures var last := |popped| - 1;
            && Unfolds(g, options, world, maxHops, popped[..last], appended[..last], envs[..last + 1])
            && UnfoldsAt(g, options, world, maxHops, popped, appended, envs, last)
  {
    hide HandsOn, Attempted, Occurrences;
    var last := |popped| - 1;
    var popped', appended', envs' := popped[..last], appended[..last], envs[..last + 1];
    forall k: nat | k < |popped'|
      ensures UnfoldsAt(g, options, world, maxHops, popped', appended', envs', k)
    {
      assert UnfoldsAt(g, options, world, maxHops, popped, appended, envs, k);
      assert popped'[..k] == popped[..k];
    }
  }

  /** Leaving out the capped pops: the k-th processed node starts from the envelope the one before it handed on. */
  lemma {:induction false} UnfoldsPassesAlong(g: Graph, options: Options, world: World, maxHops: nat, popped: seq<string>,
                                              appended: seq<seq<string>>, envs: seq<Envelope>)
    returns (passed: seq<Envelope>, sent: seq<seq<string>>)
    requires Unfolds(g, options, world, maxHops, popped, appended, envs)
    ensures HandedOver(g, options, world, Attempted(popped, maxHops), passed, sent)
    ensures passed[0] == envs[0] && passed[|passed| - 1] == envs[|popped|]
    decreases |popped|
  {
    hide HandsOn, Occurrences;
    if popped == [] {
      passed, sent := envs, [];
    } else {
      var last := |popped| - 1;
      var front, id := popped[..last], popped[last];
      var ids := Attempted(front, maxHops);
      UnfoldsFront(g, options, world, maxHops, popped, appended, envs);
      passed, sent := UnfoldsPassesAlong(g, options, world, maxHops, front, appended[..last], envs[..last + 1]);
      SplitLast(popped);
      AttemptedStep(front, maxHops, id);
      hide Attempted;
      if Occurrences(front, id) < maxHops {
        AttemptedCount(front, maxHops, id);
        HandedOverStep(g, options, world, ids, passed, sent, id, envs[|popped|], appended[last]);
        passed, sent := passed + [envs[|popped|]], sent + [appended[last]];
      } else {
        assert Attempted(popped, maxHops) == ids;
      }
    }
  }

  /**
   Without a controller, routers and redirects: each processed node receives what the one before it left,
   from the envelope the run was given to the one it returns.
   */
  lemma PlainRunPassesResults(g: Graph, options: Options, world: World, maxHops: nat, popped: seq<string>,
                              appended: seq<seq<string>>, env: Envelope, current: Envelope)
    returns (envs: seq<Envelope>)
    requires g.WellFormed() && !world.controlled && NeverRoutes(g, world) && Unrouted(env)
    requires Unfolded(g, options, world, maxHops, popped, appended, env, current)
    ensures var ids := Attempted(popped, maxHops);
            && |envs| == |ids| + 1 && envs[0] == env && envs[|ids|] == current
            && forall k: nat :: k < |ids| ==>
                 ids[k] in g.nodes
                 && Leaves(options, world.run(k, g.nodes[ids[k]], envs[k]), ids[k], Occurrences(ids[..k], ids[k]) + 1,
                           envs[k + 1])
  {
    hide HandsOn, NeverRoutes, UnfoldsAt, Attempted, Graph.WellFormed;
    var unfolding :|
      Unfolds(g, options, world, maxHops, popped, appended, unfolding) && unfolding[0] == env && unfolding[|popped|] == current;
    var sent;
    var ids := Attempted(popped, maxHops);
    envs, sent := UnfoldsPassesAlong(g, options, world, maxHops, popped, appended, unfolding);
    hide Unfolded, Unfolds;
    var k: nat := 0;
    while k < |ids|
      invariant k <= |ids| && Unrouted(envs[k])
      invariant forall i: nat :: i < k ==>
                  ids[i] in g.nodes
                  && Leaves(options, world.run(i, g.nodes[ids[i]], envs[i]), ids[i], Occurrences(ids[..i], ids[i]) + 1,
                            envs[i + 1])
    {
      hide Unrouted, Leaves, Occurrences;
      assert HandsOver(g, options, world, ids, envs, sent, k);
      PlainHandsOn(g, options, world, k, ids[k], Occurrences(ids[..k], ids[k]) + 1, envs[k], envs[k + 1], sent[k]);
      k := k + 1;
    }
  }

  lemma PlainHandsOn(g: Graph, options: Options, world: World, tick: nat, id: string, attempt: nat, env: Envelope,
                     env': Envelope, targets: seq<string>)
    requires g.WellFormed() && id in g.nodes && !world.controlled && NeverRoutes(g, world) && Unrouted(env)
    requires HandsOn(g, options, world, tick, g.nodes[id], attempt, env, env', targets)
    ensures Leaves(options, world.run(tick, g.nodes[id], env), id, attempt, env') && Unrouted(env')
  {
    hide FollowedBy;
    var start, left :|
      && StartsFrom(world, tick, env, start)
      && (if SkippedAt(world, tick) then left == start
          else Leaves(options, world.run(tick, g.nodes[id], start), g.nodes[id].id, attempt, left))
      && ClearsHint(g, g.nodes[id], left, env') && FollowedBy(g, g.nodes[id], left, targets);
    assert start == env;
    assert Unrouted(left);
  }

  // ----- how an iteration ends and what it announces

  /** The changes of the step controller leave a single envelope to start from. */
  lemma StartIsAdjusted(world: World, tick: nat, env: Envelope, start: Envelope)
    requires StartsFrom(world, tick, env, start)
    ensures start == Adjusted(world, tick, env)
  {
    AdjustedStarts(world, tick, env);
    var reply := world.before(tick);
    if reply.Replied? && reply.changes.Some? && IsChanged(world, tick, reply.changes.value) {
      assert start.vars.Keys == Adjusted(world, tick, env).vars.Keys;
      assert start.vars == Adjusted(world, tick, env).vars;
    }
  }

  /** The controller lets the node run. */
  ghost predicate MayRun(world: World, tick: nat) {
    world.controlled ==>
      world.before(tick).Unpaused?
      || (world.before(tick).Replied? && world.before(tick).action in {Continue, RunToBreakpoint})
  }

  /** Exactly when an iteration runs its node, and when the controller, an abort or the node's failure ends the run. */
  lemma TurnEnds(g: Graph, options: Options, world: World, tick: nat, node: Node, attempt: nat, current: Envelope,
                 start: Envelope)
    requires StartsFrom(world, tick, current, start)
    ensures var turn := TurnOf(g, options, world, tick, node, attempt, current);
            var before, after, ran := world.before(tick), world.after(tick), MayRun(world, tick);
            && turn.ran == ran
            && (turn.stop == Some(ControllerError) <==>
                  world.controlled && (before.ControllerFailed? || (ran && after.ControllerFailed?)))
            && (turn.stop == Some(Aborted) <==>
                  && world.controlled
                  && ((before.Replied? && before.action == Abort) || (ran && after.Replied? && after.action == Abort)))
            && (turn.stop == Some(NodeFailure(node.id)) <==>
                  && ran && !options.continueOnError && world.run(tick, node, start).result.None?
                  && !(world.controlled && (after.ControllerFailed? || (after.Replied? && after.action == Abort))))
            && (turn.stop.None? || turn.stop.value in {ControllerError, Aborted, NodeFailure(node.id)})
  {
    StartIsAdjusted(world, tick, current, start);
    hide Route, NodeEvents, StepEvents, RouteEvents, StartsFrom, Adjusted;
  }

  lemma StepEventsAre(world: World, reply: StepReply, id: string, event: EventKind)
    ensures event in StepEvents(world, reply, id) <==>
              world.controlled && ((event == StepPaused(id) && !reply.Unpaused?) || (event == StepResumed(id) && reply.Replied?))
  {
  }

  lemma NodeEventsAre(id: string, run: NodeRun, event: EventKind)
    ensures event in NodeEvents(id, run) <==>
              || event == NodeStarted(id) || (event == NodeOutput(id) && run.outputs > 0)
              || (event == NodeFinished(id) && run.result.Some?) || (event == NodeFailed(id) && run.result.None?)
  {
    var outputs := seq(run.outputs, _ => NodeOutput(id));
    assert NodeOutput(id) in outputs <==> run.outputs > 0 by {
      if run.outputs > 0 {
        assert outputs[0] == NodeOutput(id);
      }
    }
    InConcat([NodeStarted(id)], outputs, event);
    InConcat([NodeStarted(id)] + outputs, [if run.result.None? then NodeFailed(id) else NodeFinished(id)], event);
  }

  lemma InConcat<T>(a: seq<T>, b: seq<T>, x: T)
    ensures x in a + b <==> x in a || x in b
  {
  }

  lemma ExecutedAnnounces(g: Graph, options: Options, world: World, tick: nat, node: Node, attempt: nat, env: Envelope,
                          before: seq<EventKind>, event: EventKind)
    requires !event.RouteDecision?
    ensures var turn := Executed(g, options, world, tick, node, attempt, env, before);
            event in turn.events <==>
              || event in before || event in NodeEvents(node.id, world.run(tick, node, env))
              || event in StepEvents(world, world.after(tick), node.id)
              || (event == StepAborted(node.id) && turn.stop == Some(Aborted))
  {
    var run, after := world.run(tick, node, env), StepEvents(world, world.after(tick), node.id);
    var ran := NodeEvents(node.id, run);
    InConcat(before, ran, event);
    InConcat(before + ran, after, event);
    InConcat(before + ran + after, [StepAborted(node.id)], event);
    var resolved := ResolveOutcome(run, node.id, attempt, options);
    if resolved.Ok? {
      InConcat(before + ran + after, RouteEvents(g, node, resolved.value), event);
    }
    hide Route, NodeEvents, StepEvents;
  }

  /** Exactly which events an iteration emits, the announced routes aside. */
  lemma TurnAnnounces(g: Graph, options: Options, world: World, tick: nat, node: Node, attempt: nat, current: Envelope,
                      start: Envelope, event: EventKind)
    requires StartsFrom(world, tick, current, start) && !event.RouteDecision?
    ensures var turn := TurnOf(g, options, world, tick, node, attempt, current);
            var before, after, id, run := world.before(tick), world.after(tick), node.id, world.run(tick, node, start);
            var ran := MayRun(world, tick);
            event in turn.events <==>
              || (event == NodeStarted(id) && ran)
              || (event == NodeOutput(id) && ran && run.outputs > 0)
              || (event == NodeFinished(id) && ran && run.result.Some?)
              || (event == NodeFailed(id) && ran && run.result.None?)
              || (event == StepPaused(id) && world.controlled && (!before.Unpaused? || (ran && !after.Unpaused?)))
              || (event == StepResumed(id) && world.controlled && (before.Replied? || (ran && after.Replied?)))
              || (event == StepSkipped(id) && SkippedAt(world, tick))
              || (event == StepAborted(id) && turn.stop == Some(Aborted))
  {
    StartIsAdjusted(world, tick, current, start);
    var before := StepEvents(world, world.before(tick), node.id);
    StepEventsAre(world, world.before(tick), node.id, event);
    ExecutedAnnounces(g, options, world, tick, node, attempt, start, before, event);
    InConcat(before, [StepAborted(node.id)], event);
    InConcat(before, [StepSkipped(node.id)], event);
    InConcat(before + [StepSkipped(node.id)], RouteEvents(g, node, start), event);
    NodeEventsAre(node.id, world.run(tick, node, start), event);
    StepEventsAre(world, world.after(tick), node.id, event);
    TurnEnds(g, options, world, tick, node, attempt, current, start);
    hide Route, Executed, NodeEvents, StepEvents, StartsFrom, Adjusted;
  }

  // ----- termination measure

  /** Hops still available over the listed nodes. */
  ghost function Slack(ids: seq<string>, hopCount: map<string, nat>, maxHops: nat): int {
    if ids == [] then 0
    else Slack(ids[..|ids| - 1], hopCount, maxHops) + maxHops - HopCount(hopCount, ids[|ids| - 1])
  }

  lemma {:induction false} SlackBounds(ids: seq<string>, hopCount: map<string, nat>, maxHops: nat)
    requires forall id :: HopCount(hopCount, id) <= maxHops
    ensures 0 <= Slack(ids, hopCount, maxHops) <= |ids| * maxHops
  {
    if ids != [] {
      SlackBounds(ids[..|ids| - 1], hopCount, maxHops);
    }
  }

  lemma {:induction false} SlackStep(ids: seq<string>, hopCount: map<string, nat>, maxHops: nat, id: string)
    requires NoDup(ids)
    ensures Slack(ids, hopCount[id := HopCount(hopCount, id) + 1], maxHops)
         == Slack(ids, hopCount, maxHops) - if id in ids then 1 else 0
  {
    if ids != [] {
      var front := ids[..|ids| - 1];
      assert ids == front + [ids[|ids| - 1]];
      ExtendNoDup(front, ids[|ids| - 1]);
      SlackStep(front, hopCount, maxHops, id);
    }
  }

  // ----- loop invariant

  /** Hop counters and visited marks agree with the log of dequeued nodes. */
  ghost predicate Accounted(g: Graph, maxHops: nat, popped: seq<string>, hopCount: map<string, nat>, visited: set<string>) {
    && (forall id :: HopCount(hopCount, id) == Hops(popped, maxHops, id))
    && (forall id :: id in visited <==> HopCount(hopCount, id) > 0)
    && visited <= g.nodes.Keys
  }

  lemma HopCountStep(hopCount: map<string, nat>, id: string, n: string)
    ensures HopCount(hopCount[id := HopCount(hopCount, id) + 1], n) == HopCount(hopCount, n) + if n == id then 1 else 0
  {
  }

  lemma AccountedStep(g: Graph, maxHops: nat, popped: seq<string>, hopCount: map<string, nat>, visited: set<string>,
                      id: string)
    requires Accounted(g, maxHops, popped, hopCount, visited)
    requires Occurrences(popped, id) < maxHops && id in g.nodes
    ensures Accounted(g, maxHops, popped + [id], hopCount[id := HopCount(hopCount, id) + 1], visited + {id})
  {
    var hopCount' := hopCount[id := HopCount(hopCount, id) + 1];
    forall n
      ensures HopCount(hopCount', n) == Hops(popped + [id], maxHops, n)
      ensures n in visited + {id} <==> HopCount(hopCount', n) > 0
    {
      HopCountStep(hopCount, id, n);
      assert Occurrences(popped + [id], n) == Occurrences(popped, n) + if n == id then 1 else 0;
    }
  }

  lemma AccountedDrop(g: Graph, maxHops: nat, popped: seq<string>, hopCount: map<string, nat>, visited: set<string>,
                      id: string)
    requires Accounted(g, maxHops, popped, hopCount, visited)
    requires Occurrences(popped, id) >= maxHops
    ensures Accounted(g, maxHops, popped + [id], hopCount, visited)
  {
  }

  ghost predicate InGraph(g: Graph, queue: seq<string>) {
    forall id :: id in queue ==> id in g.nodes
  }

  lemma SuccessorsInGraph(g: Graph, id: string, targets: seq<string>)
    requires g.WellFormed()
    requires forall t :: t in targets ==> t in g.Successors(id)
    ensures InGraph(g, targets)
  {
    forall t | t in targets
      ensures t in g.nodes
    {
      TargetsMembership(g.edges, id, t);
    }
  }

  /** What holds whenever the loop has dequeued `popped` and holds `queue`. */
  ghost predicate Working(g: Graph, maxHops: nat, popped: seq<string>, appended: seq<seq<string>>, queue: seq<string>,
                          hopCount: map<string, nat>, visited: set<string>)
  {
    && IsLog(FlowOf(g), maxHops, popped, appended, queue)
    && Accounted(g, maxHops, popped, hopCount, visited)
    && InGraph(g, queue)
  }

  lemma WorkingStart(g: Graph, maxHops: nat)
    requires maxHops >= 1 && g.entry in g.nodes
    ensures Working(g, maxHops, [], [], [g.entry], map[], {})
    ensures FollowsAll(FlowOf(g), maxHops, [], [])
    ensures forall id :: HopCount(map[], id) <= maxHops
  {
    LogStart(FlowOf(g), maxHops);
  }

  /** Facts the loop body needs about the node it dequeues. */
  lemma WorkingHead(g: Graph, maxHops: nat, popped: seq<string>, appended: seq<seq<string>>, queue: seq<string>,
                    hopCount: map<string, nat>, visited: set<string>, id: string)
    requires maxHops >= 1
    requires Working(g, maxHops, popped, appended, [id] + queue, hopCount, visited)
    ensures id in g.nodes
    ensures ShouldSkipVisited(id, visited, hopCount, maxHops) <==> Occurrences(popped, id) >= maxHops
    ensures Occurrences(popped, id) < maxHops ==> HopCount(hopCount, id) == Occurrences(popped, id) < maxHops
    ensures forall n :: HopCount(hopCount, n) <= maxHops
  {
    assert id in [id] + queue;
  }

  lemma WorkingDrop(g: Graph, maxHops: nat, popped: seq<string>, appended: seq<seq<string>>, queue: seq<string>,
                    hopCount: map<string, nat>, visited: set<string>, id: string)
    requires Working(g, maxHops, popped, appended, [id] + queue, hopCount, visited)
    requires Occurrences(popped, id) >= maxHops
    ensures Working(g, maxHops, popped + [id], appended + [[]], queue, hopCount, visited)
    ensures FollowsAll(FlowOf(g), maxHops, popped, appended)
            ==> FollowsAll(FlowOf(g), maxHops, popped + [id], appended + [[]])
  {
    hide IsLog, FollowsAll, Accounted;
    LogStep(FlowOf(g), maxHops, popped, appended, id, queue, []);
    assert queue + [] == queue;
    AccountedDrop(g, maxHops, popped, hopCount, visited, id);
    if FollowsAll(FlowOf(g), maxHops, popped, appended) {
      FollowsAllStep(FlowOf(g), maxHops, popped, appended, id, []);
    }
    assert forall n :: n in queue ==> n in [id] + queue;
  }

  lemma WorkingStep(g: Graph, maxHops: nat, popped: seq<string>, appended: seq<seq<string>>, queue: seq<string>,
                    hopCount: map<string, nat>, visited: set<string>, id: string, targets: seq<string>)
    requires g.WellFormed()
    requires Working(g, maxHops, popped, appended, [id] + queue, hopCount, visited)
    requires Occurrences(popped, id) < maxHops
    requires forall t :: t in targets ==> t in g.Successors(id)
    ensures Working(g, maxHops, popped + [id], appended + [targets], queue + targets,
                    hopCount[id := HopCount(hopCount, id) + 1], visited + {id})
    ensures FollowsAll(FlowOf(g), maxHops, popped, appended) && targets == g.Successors(id)
            ==> FollowsAll(FlowOf(g), maxHops, popped + [id], appended + [targets])
  {
    assert id in [id] + queue;
    SuccessorsInGraph(g, id, targets);
    hide IsLog, FollowsAll, Accounted, Targets;
    LogStep(FlowOf(g), maxHops, popped, appended, id, queue, targets);
    AccountedStep(g, maxHops, popped, hopCount, visited, id);
    if FollowsAll(FlowOf(g), maxHops, popped, appended) && targets == g.Successors(id) {
      FollowsAllStep(FlowOf(g), maxHops, popped, appended, id, targets);
    }
    assert forall n :: n in queue ==> n in [id] + queue;
  }

  // ----- the engine

  /** What holds of every iteration, whatever the world does. */
  lemma TurnFacts(g: Graph, options: Options, world: World, tick: nat, node: Node, attempt: nat, current: Envelope)
    ensures var turn := TurnOf(g, options, world, tick, node, attempt, current);
            && (turn.stop.None? ==> forall t :: t in turn.targets ==> t in g.Successors(node.id))
            && turn.stop != Some(Completed)
            && (turn.stop.Some? && turn.stop.value.NodeFailure? ==>
                  turn.ran && !options.continueOnError && turn.stop.value.id == node.id)
            && (NeverSkips(world) && turn.stop.None? ==> turn.ran)
  {
    hide Route, NodeEvents, StepEvents, RouteEvents;
  }

  /** Without redirects and routers every successor follows. */
  lemma TurnFollowsAll(g: Graph, options: Options, world: World, tick: nat, node: Node, attempt: nat, current: Envelope)
    requires NeverRedirects(world) && Unrouted(current) && !node.kind.Router?
    ensures var turn := TurnOf(g, options, world, tick, node, attempt, current);
            turn.stop.None? ==> Unrouted(turn.env) && turn.targets == g.Successors(node.id)
  {
    var env := Adjusted(world, tick, current);
    assert Unrouted(env);
    var run := world.run(tick, node, env);
    var resolved := ResolveOutcome(run, node.id, attempt, options);
    UnroutedFollowsAll(g, node, env);
    if resolved.Ok? {
      UnroutedFollowsAll(g, node, resolved.value);
    }
    hide Route, NodeEvents, StepEvents, RouteEvents, Unrouted;
  }

  /** One iteration: the turn its specification describes, with exactly its events. */
  method ProcessNode(g: Graph, options: Options, world: World, tick: nat, node: Node, attempt: nat, current: Envelope,
                     emitter: Emitter)
    returns (turn: Turn)
    requires Settled(emitter)
    modifies emitter
    ensures Settled(emitter)
    ensures turn == TurnOf(g, options, world, tick, node, attempt, current)
    ensures turn.stop.None? ==> HandsOn(g, options, world, tick, node, attempt, current, turn.env, turn.targets)
    ensures emitter.Trace() == old(emitter.Trace()) + turn.events
    ensures Started(emitter.Trace()) == Started(old(emitter.Trace())) + if turn.ran then [node.id] else []
  {
    TurnHandsOn(g, options, world, tick, node, attempt, current);
    hide Started, PhaseAfter, Kinds, Emitter.Valid, Route, NodeEvents, RouteEvents, StepEvents, HandsOn;
    var env := current;
    ghost var trace := emitter.Trace();
    var failed, action, changes := HandleStepPoint(world, world.before(tick), node.id, emitter);
    var events := StepEvents(world, world.before(tick), node.id);
    if changes.Some? {
      env := Apply(env, changes.value);
    }
    if failed {
      return Turn(Some(ControllerError), env, [], false, events);
    }
    if action == Abort {
      Announce(emitter, StepAborted(node.id));
      Associate(trace, events, [StepAborted(node.id)], []);
      return Turn(Some(Aborted), env, [], false, events + [StepAborted(node.id)]);
    }
    if action == SkipNode {
      Announce(emitter, StepSkipped(node.id));
      ghost var routed := RouteEvents(g, node, env);
      Associate(trace, events, [StepSkipped(node.id)], routed);
      var targets, env' := DetermineSuccessors(g, node, env, emitter);
      return Turn(None, env', targets, false, events + [StepSkipped(node.id)] + RouteEvents(g, node, env));
    }
    turn := RunNode(g, options, world, tick, node, attempt, env, emitter, events, trace);
  }

  /** The second half of an iteration. */
  method RunNode(g: Graph, options: Options, world: World, tick: nat, node: Node, attempt: nat, env: Envelope,
                 emitter: Emitter, before: seq<EventKind>, ghost trace: seq<EventKind>)
    returns (turn: Turn)
    requires Settled(emitter) && emitter.Trace() == trace + before
    modifies emitter
    ensures Settled(emitter)
    ensures turn == Executed(g, options, world, tick, node, attempt, env, before)
    ensures turn.ran && emitter.Trace() == trace + turn.events
    ensures Started(emitter.Trace()) == Started(old(emitter.Trace())) + [node.id]
  {
    hide Started, PhaseAfter, Kinds, Emitter.Valid, Route, NodeEvents, RouteEvents, StepEvents;
    var run := ExecuteNode(world, tick, node, env, emitter);
    var failed, action, changes := HandleStepPoint(world, world.after(tick), node.id, emitter);
    var ran, paused := NodeEvents(node.id, run), StepEvents(world, world.after(tick), node.id);
    var events := before + ran + paused;
    Associate(trace, before, ran, paused);
    if failed {
      return Turn(Some(ControllerError), run.touched, [], true, events);
    }
    if action == Abort {
      Announce(emitter, StepAborted(node.id));
      Associate(trace, events, [StepAborted(node.id)], []);
      return Turn(Some(Aborted), run.touched, [], true, events + [StepAborted(node.id)]);
    }
    var resolved := ResolveOutcome(run, node.id, attempt, options);
    if resolved.Err? {
      return Turn(Some(resolved.error), run.touched, [], true, events);
    }
    var targets, env' := DetermineSuccessors(g, node, resolved.value, emitter);
    Associate(trace, events, RouteEvents(g, node, resolved.value), []);
    turn := Turn(None, env', targets, true, events + RouteEvents(g, node, resolved.value));
  }

  /**
   The worklist loop. It terminates for every node, router and controller behaviour; no node gets
   more than maxHops hops; and when it completes, the log of dequeued nodes accounts for everything.
   */
  method ExecuteSequential(g: Graph, env: Envelope, options: Options, maxHops: nat, world: World, emitter: Emitter)
    returns (outcome: Outcome, current: Envelope, hopCount: map<string, nat>, visited: set<string>,
             executed: seq<string>, ghost popped: seq<string>, ghost appended: seq<seq<string>>)
    requires g.WellFormed() && g.entry in g.nodes && maxHops >= 1
    requires Settled(emitter)
    modifies emitter
    ensures Settled(emitter)
    ensures Started(emitter.Trace()) == Started(old(emitter.Trace())) + executed
    ensures forall id :: HopCount(hopCount, id) <= maxHops
    ensures outcome == Completed ==> IsLog(FlowOf(g), maxHops, popped, appended, [])
    ensures outcome == Completed ==> Accounted(g, maxHops, popped, hopCount, visited)
    ensures outcome == Completed && NeverSkips(world) ==> executed == Attempted(popped, maxHops)
    ensures outcome == Completed && NeverRoutes(g, world) && Unrouted(env) ==>
              FollowsAll(FlowOf(g), maxHops, popped, appended)
    ensures outcome == Completed ==> Ok(current) == Threaded(g, options, world, maxHops, popped, env)
    ensures outcome == Completed ==> Unfolded(g, options, world, maxHops, popped, appended, env, current)
    ensures outcome.NodeFailure? ==> !options.continueOnError && executed != [] && executed[|executed| - 1] == outcome.id
  {
    hide Started, PhaseAfter, Kinds, Emitter.Valid, Slack, TurnOf;
    hide IsLog, FollowsAll, Accounted, Unrouted, NeverRoutes, NeverSkips, Graph.WellFormed, Route, Unfolded, HandsOn;
    current := env;
    var queue := [g.entry];
    hopCount, visited, executed, popped, appended := map[], {}, [], [], [];
    WorkingStart(g, maxHops);
    UnfoldedStart(g, options, world, maxHops, env);
    SlackBounds(g.nodeOrder, hopCount, maxHops);
    var tick := 0;
    while |queue| > 0
      invariant Settled(emitter)
      invariant Started(emitter.Trace()) == Started(old(emitter.Trace())) + executed
      invariant Working(g, maxHops, popped, appended, queue, hopCount, visited)
      invariant forall id :: HopCount(hopCount, id) <= maxHops
      invariant 0 <= Slack(g.nodeOrder, hopCount, maxHops)
      invariant NeverSkips(world) ==> executed == Attempted(popped, maxHops)
      invariant NeverRoutes(g, world) && Unrouted(env) ==>
                  Unrouted(current) && FollowsAll(FlowOf(g), maxHops, popped, appended)
      invariant tick == |Attempted(popped, maxHops)|
      invariant Ok(current) == Threaded(g, options, world, maxHops, popped, env)
      invariant Unfolded(g, options, world, maxHops, popped, appended, env, current)
      decreases Slack(g.nodeOrder, hopCount, maxHops), |queue|
    {
      var id := queue[0];
      assert queue == [id] + queue[1..];
      queue := queue[1..];
      WorkingHead(g, maxHops, popped, appended, queue, hopCount, visited, id);
      AttemptedStep(popped, maxHops, id);
      ThreadedStep(g, options, world, maxHops, popped, env, id);
      if ShouldSkipVisited(id, visited, hopCount, maxHops) {
        WorkingDrop(g, maxHops, popped, appended, queue, hopCount, visited, id);
        UnfoldedStep(g, options, world, maxHops, popped, appended, env, current, id, [], current);
        popped, appended := popped + [id], appended + [[]];
        continue;
      }
      if world.cancelled(tick) {
        return Cancelled, current, hopCount, visited, executed, popped, appended;
      }
      ghost var slack, before := Slack(g.nodeOrder, hopCount, maxHops), hopCount;
      SlackDrops(g, hopCount, maxHops, id);
      hopCount := hopCount[id := HopCount(hopCount, id) + 1];
      forall n
        ensures HopCount(hopCount, n) <= maxHops
      {
        HopCountStep(before, id, n);
      }
      SlackBounds(g.nodeOrder, hopCount, maxHops);
      var attempt := hopCount[id];
      if attempt > maxHops {
        assert false; // ErrMaxHopsExceeded
      }
      if id !in g.nodes {
        assert false; // ErrNodeNotFound
      }
      NodeKeepsId(g, id);
      IterationFacts(g, options, world, tick, id, attempt, current);
      var turn := ProcessNode(g, options, world, tick, g.nodes[id], attempt, current, emitter);
      ghost var given := current;
      current := turn.env;
      if turn.ran {
        executed := executed + [id];
      }
      if turn.stop.Some? {
        return turn.stop.value, current, hopCount, visited, executed, popped, appended;
      }
      WorkingStep(g, maxHops, popped, appended, queue, before, visited, id, turn.targets);
      UnfoldedStep(g, options, world, maxHops, popped, appended, env, given, id, turn.targets, current);
      visited := visited + {id};
      queue := queue + turn.targets;
      popped, appended := popped + [id], appended + [turn.targets];
      tick := tick + 1;
    }
    outcome := Completed;
  }

  lemma SlackDrops(g: Graph, hopCount: map<string, nat>, maxHops: nat, id: string)
    requires g.WellFormed() && id in g.nodes
    ensures Slack(g.nodeOrder, hopCount[id := HopCount(hopCount, id) + 1], maxHops) == Slack(g.nodeOrder, hopCount, maxHops) - 1
  {
    SlackStep(g.nodeOrder, hopCount, maxHops, id);
    assert id in Elements(g.nodeOrder);
  }

  lemma NodeKeepsId(g: Graph, id: string)
    requires g.WellFormed() && id in g.nodes
    ensures g.nodes[id].id == id
  {
  }

  /** What the loop uses of one iteration. */
  lemma IterationFacts(g: Graph, options: Options, world: World, tick: nat, id: string, attempt: nat, current: Envelope)
    requires id in g.nodes && g.nodes[id].id == id
    ensures var turn := TurnOf(g, options, world, tick, g.nodes[id], attempt, current);
            && (turn.stop.None? ==> forall t :: t in turn.targets ==> t in g.Successors(id))
            && turn.stop != Some(Completed)
            && (turn.stop.Some? && turn.stop.value.NodeFailure? ==>
                  turn.ran && !options.continueOnError && turn.stop.value.id == id)
            && (NeverSkips(world) && turn.stop.None? ==> turn.ran)
            && (NeverRoutes(g, world) && Unrouted(current) && turn.stop.None? ==>
                  Unrouted(turn.env) && turn.targets == g.Successors(id))
  {
    TurnFacts(g, options, world, tick, g.nodes[id], attempt, current);
    if NeverRoutes(g, world) && Unrouted(current) {
      TurnFollowsAll(g, options, world, tick, g.nodes[id], attempt, current);
    }
    hide TurnOf, NeverSkips, NeverRedirects, Unrouted;
  }

  function EffectiveMaxHops(options: Options): (maxHops: nat)
    ensures options.maxHops > 0 ==> maxHops == options.maxHops
    ensures options.maxHops <= 0 ==> maxHops == 100
  {
    if options.maxHops <= 0 then 100 else options.maxHops
  }

  const EMPTY_ENVELOPE := Envelope(map[], [])

  /**
   A sequential run, from graph check to run.finished. A rejected graph emits nothing; any other run
   emits a complete trace, numbered from 1 without gaps, whose node.started events are exactly the
   executions, however the run ends.
   */
  method Run(g: Graph, env: Option<Envelope>, options: Options, world: World, emitter: Emitter)
    returns (rejected: Option<GraphError>, outcome: Outcome, current: Envelope, hopCount: map<string, nat>,
             executed: seq<string>, ghost popped: seq<string>, ghost appended: seq<seq<string>>)
    requires g.WellFormed()
    requires emitter.Valid() && emitter.log == []
    modifies emitter
    ensures rejected == g.Validate()
    ensures rejected.Some? ==> emitter.log == []
    ensures rejected.None? ==> PhaseAfter(emitter.Trace()) == After
    ensures forall i :: 0 <= i < |emitter.log| ==> emitter.log[i].number == i + 1
    ensures Started(emitter.Trace()) == executed
    ensures forall id :: HopCount(hopCount, id) <= EffectiveMaxHops(options)
    ensures rejected.None? && outcome == Completed ==>
              && IsLog(FlowOf(g), EffectiveMaxHops(options), popped, appended, [])
              && (forall id :: HopCount(hopCount, id) == Hops(popped, EffectiveMaxHops(options), id))
              && (NeverSkips(world) ==> executed == Attempted(popped, EffectiveMaxHops(options)))
              && (NeverRoutes(g, world) && (env.None? || Unrouted(env.value)) ==>
                    FollowsAll(FlowOf(g), EffectiveMaxHops(options), popped, appended))
              && Ok(current) == Threaded(g, options, world, EffectiveMaxHops(options), popped,
                                         if env.None? then EMPTY_ENVELOPE else env.value)
              && Unfolded(g, options, world, EffectiveMaxHops(options), popped, appended,
                          if env.None? then EMPTY_ENVELOPE else env.value, current)
  {
    hide IsLog, FollowsAll, Unrouted, NeverRoutes, NeverSkips, Unfolded, Threaded, Attempted, Hops, Graph.WellFormed;
    outcome, current := Completed, if env.None? then EMPTY_ENVELOPE else env.value;
    hopCount, executed, popped, appended := map[], [], [], [];
    var maxHops := EffectiveMaxHops(options);
    rejected := g.Validate();
    if rejected.Some? {
      assert emitter.Trace() == [];
      return;
    }
    assert emitter.Trace() == [];
    Record(emitter, RunStarted);
    hide Graph.Validate, Kinds;
    EmptyIsUnrouted();
    var visited;
    outcome, current, hopCount, visited, executed, popped, appended :=
      ExecuteSequential(g, current, options, maxHops, world, emitter);
    Record(emitter, RunFinished);
  }

  lemma EmptyIsUnrouted()
    ensures Unrouted(EMPTY_ENVELOPE)
  {
  }
}
