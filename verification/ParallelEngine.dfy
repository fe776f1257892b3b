/** The parallel engine's own code: each method is one step between two channel operations, and does what the step says. */
module ParallelEngine {
  import opened Sequences
  import opened Envelopes
  import opened ParallelRuntime

  class Engine {
    var workCh: seq<Item>
    var busy: seq<Item>
    var resultCh: seq<Item>
    var coordinator: Coordinator
    var pending: nat
    var hops: map<string, nat>
    var mergeInputs: map<string, seq<Envelope>>
    var final: Option<Envelope>
    ghost var scheduled: seq<string>
    ghost var started: seq<string>
    ghost var processed: seq<string>
    ghost var outputs: map<string, Envelope>
    ghost var mergeSources: map<string, seq<string>>

    ghost function View(): State
      reads this
    {
      State(workCh, busy, resultCh, coordinator, pending, hops, mergeInputs, final,
            scheduled, started, processed, outputs, mergeSources)
    }

    /** The entry node is submitted. */
    constructor (c: Config)
      ensures View() == Init(c)
    {
      workCh, busy, resultCh, coordinator, pending := [Item(c.g.entry, c.start)], [], [], Waiting, 1;
      hops, mergeInputs, final := map[], map[], None;
      scheduled, started, processed, outputs, mergeSources := [c.g.entry], [], [], map[], map[];
    }

    /** Whether a step is possible now. */
    method CanStep(c: Config, a: Action) returns (ok: bool)
      ensures ok <==> Enabled(c, View(), a)
    {
      ok := Enabled(c, State(workCh, busy, resultCh, coordinator, pending, hops, mergeInputs, final, [], [], [], map[], map[]), a);
    }

    /** An idle worker receives a work item. */
    method TakeWork(c: Config)
      requires Enabled(c, View(), Take)
      modifies this
      ensures View() == Do(c, old(View()), Take)
    {
      var item := workCh[0];
      workCh, busy := workCh[1..], busy + [item];
      started := started + [item.node];
    }

    /** A worker sends its node's answer. */
    method PutResult(c: Config, worker: nat, out: Envelope)
      requires Enabled(c, View(), Put(worker, out))
      modifies this
      ensures View() == Do(c, old(View()), Put(worker, out))
    {
      var node := busy[worker].node;
      busy := busy[..worker] + busy[worker + 1..];
      resultCh := resultCh + [Item(node, out)];
    }

    method IncrementHop(id: string) returns (attempt: nat)
      modifies this`hops
      ensures attempt == (if id in old(hops) then old(hops)[id] else 0) + 1 && hops == old(hops)[id := attempt]
    {
      attempt := if id in hops then hops[id] + 1 else 1;
      hops := hops[id := attempt];
    }

    method CanScheduleSuccessor(id: string, maxHops: nat) returns (ok: bool)
      ensures ok <==> HopsOf(View(), id) < maxHops
    {
      ok := (if id in hops then hops[id] else 0) < maxHops;
    }

    method AddMergeInput(id: string, env: Envelope, expected: nat) returns (inputs: seq<Envelope>, ready: bool)
      modifies this`mergeInputs
      ensures inputs == Lookup(old(mergeInputs), id) + [env] && mergeInputs == old(mergeInputs)[id := inputs]
      ensures ready <==> |inputs| >= expected
    {
      inputs := Lookup(mergeInputs, id) + [env];
      mergeInputs := mergeInputs[id := inputs];
      ready := |inputs| >= expected;
    }

    /** Receives a result and counts its node's hop. */
    method PopResult() returns (item: Item)
      requires resultCh != [] && pending > 0
      modifies this`resultCh, this`pending, this`hops
      ensures item == old(resultCh[0]) && resultCh == old(resultCh[1..]) && pending == old(pending) - 1
      ensures hops == old(hops)[item.node := (if item.node in old(hops) then old(hops)[item.node] else 0) + 1]
    {
      item := resultCh[0];
      resultCh, pending := resultCh[1..], pending - 1;
      var attempt := IncrementHop(item.node);
    }

    /** The coordinator receives a result, counts the hop and chooses the successors. */
    method ReceiveResult(c: Config)
      requires Enabled(c, View(), Receive)
      modifies this
      ensures View() == Do(c, old(View()), Receive)
      ensures var item := old(resultCh[0]);
              && coordinator == Scheduling(item.node, coordinator.env, coordinator.remaining, 0)
              && (item.node in c.g.nodes ==>
                    && FollowedBy(c.g, c.g.nodes[item.node], item.env, coordinator.remaining)
                    && ClearsHint(c.g, c.g.nodes[item.node], item.env, coordinator.env))
    {
      hide RouteOf, FollowedBy, ClearsHint;
      var item := PopResult();
      var r := ChooseSuccessors(c, item);
      coordinator := Scheduling(item.node, r.env, r.targets, 0);
      processed, outputs := processed + [item.node], outputs[item.node := r.env];
    }

    method ChooseSuccessors(c: Config, item: Item) returns (r: Routing)
      ensures r == RouteOf(c, item)
      ensures item.node in c.g.nodes ==>
                && FollowedBy(c.g, c.g.nodes[item.node], item.env, r.targets)
                && ClearsHint(c.g, c.g.nodes[item.node], item.env, r.env)
    {
      if item.node !in c.g.nodes {
        return Routing([], item.env, None);
      }
      RouteFollows(c.g, c.g.nodes[item.node], item.env);
      r := Route(c.g, c.g.nodes[item.node], item.env);
    }

    /** Submits an item and moves on to the next successor. */
    method Submit(item: Item)
      requires coordinator.Scheduling? && coordinator.remaining != []
      modifies this`workCh, this`coordinator, this`scheduled
      ensures View() == Push(old(View()), item, old(coordinator.remaining[1..]))
    {
      workCh := workCh + [item];
      coordinator := coordinator.(remaining := coordinator.remaining[1..], added := coordinator.added + 1);
      scheduled := scheduled + [item.node];
    }

    method PassOver()
      requires coordinator.Scheduling? && coordinator.remaining != []
      modifies this`coordinator
      ensures coordinator == old(coordinator.(remaining := coordinator.remaining[1..]))
    {
      coordinator := coordinator.(remaining := coordinator.remaining[1..]);
    }

    /** How many inputs a merge waits for: by default one per predecessor. */
    method Expected(c: Config, id: string) returns (n: nat)
      requires IsMerge(c, id)
      ensures n == ExpectedInputs(c, id)
    {
      n := c.g.nodes[id].kind.expectedInputs;
      if n == 0 {
        n := |c.g.Predecessors(id)|;
      }
    }

    /** A merge successor: it is submitted, with fresh hops, once all its inputs are in. */
    method ScheduleMerge(c: Config)
      requires coordinator.Scheduling? && coordinator.remaining != [] && IsMerge(c, coordinator.remaining[0])
      modifies this
      ensures View() == DoScheduleMerge(c, old(View()))
    {
      hide ExpectedInputs;
      var id := coordinator.remaining[0];
      var expected := Expected(c, id);
      mergeSources := mergeSources[id := Lookup(mergeSources, id) + [coordinator.source]];
      var inputs, ready := AddMergeInput(id, coordinator.env, expected);
      if !ready {
        PassOver();
        return;
      }
      hops := hops[id := 0];
      Submit(Item(id, c.merge(id, inputs)));
    }

    /** One successor of the result at hand. */
    method ScheduleSuccessor(c: Config)
      requires Enabled(c, View(), Schedule)
      modifies this
      ensures View() == Do(c, old(View()), Schedule)
    {
      hide DoScheduleMerge;
      var id := coordinator.remaining[0];
      if id !in c.g.nodes {
        PassOver();
        return;
      }
      if c.g.nodes[id].kind.Merge? {
        ScheduleMerge(c);
        return;
      }
      var ok := CanScheduleSuccessor(id, c.maxHops);
      if !ok {
        PassOver();
        return;
      }
      Submit(Item(id, coordinator.env));
    }

    /** All successors are handled: the result becomes the latest and the counter takes the additions. */
    method SettleResult(c: Config)
      requires Enabled(c, View(), Settle)
      modifies this
      ensures View() == Do(c, old(View()), Settle)
    {
      pending := pending + coordinator.added;
      final := Some(coordinator.env);
      coordinator := Waiting;
    }

    /** Nothing is pending: the latest result is returned. */
    method Return(c: Config) returns (result: Envelope)
      requires Enabled(c, View(), Stop)
      modifies this
      ensures View() == Do(c, old(View()), Stop)
      ensures result == if final.Some? then final.value else c.start
    {
      coordinator := Stopped;
      result := if final.Some? then final.value else c.start;
    }
  }
}
