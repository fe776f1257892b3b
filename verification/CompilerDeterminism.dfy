/**
 Compilation is deterministic. The inputs of a task are a map, walked in an order that differs from run
 to run; the compiled definition does not depend on it.
 */
module CompilerDeterminism {
  import opened Sequences
  import opened Definitions
  import opened EdgeOrders
  import opened AgentWorkflows
  import opened AgentCompiler

  ghost predicate SameButInputOrder(a: Task, b: Task) {
    && b == a.(inputs := b.inputs)
    && multiset(b.inputs) == multiset(a.inputs)
  }

  /** The same workflow with the inputs of each task walked in some other order. */
  ghost predicate Shuffled(wf: Workflow, wf': Workflow) {
    && wf' == wf.(tasks := wf'.tasks)
    && wf'.tasks.Keys == wf.tasks.Keys
    && forall t :: t in wf.tasks ==> SameButInputOrder(wf.tasks[t], wf'.tasks[t])
  }

  lemma ShuffledAgents(wf: Workflow, wf': Workflow)
    requires Shuffled(wf, wf')
    ensures AgentsDefined(wf') <==> AgentsDefined(wf)
  {
    assert forall t :: t in wf.tasks ==> SameButInputOrder(wf.tasks[t], wf'.tasks[t]);
  }

  lemma {:induction false} ToolsSame(wf: Workflow, wf': Workflow, tools: seq<string>)
    requires wf'.toolMode == wf.toolMode
    ensures StandaloneTools(wf', tools) == StandaloneTools(wf, tools)
  {
    if tools != [] {
      ToolsSame(wf, wf', tools[..|tools| - 1]);
    }
  }

  lemma ChainSame(wf: Workflow, wf': Workflow, t: string)
    requires Shuffled(wf, wf') && t in wf.tasks && wf.tasks[t].agent in wf.agents
    ensures t in wf'.tasks && wf'.tasks[t].agent == wf.tasks[t].agent
    ensures Chain(wf', t) == Chain(wf, t)
    ensures StartOf(wf', t) == StartOf(wf, t) && OutputOf(wf', t) == OutputOf(wf, t)
  {
    assert SameButInputOrder(wf.tasks[t], wf'.tasks[t]);
    ToolsSame(wf, wf', wf.agents[wf.tasks[t].agent].tools);
  }

  lemma {:induction false} TasksSame(wf: Workflow, wf': Workflow, ids: seq<string>)
    requires Shuffled(wf, wf') && AgentsDefined(wf) && AgentsDefined(wf') && AllTasks(wf, ids) && AllTasks(wf', ids)
    ensures TaskNodes(wf', ids) == TaskNodes(wf, ids) && TaskWires(wf', ids) == TaskWires(wf, ids)
  {
    if ids != [] {
      TasksSame(wf, wf', ids[..|ids| - 1]);
      ChainSame(wf, wf', ids[|ids| - 1]);
    }
    hide Chain, Shuffled;
  }

  lemma {:induction false} RefsSame(wf: Workflow, wf': Workflow, t: string, refs: seq<string>, handle: string)
    requires Shuffled(wf, wf') && AgentsDefined(wf) && AgentsDefined(wf') && t in wf.tasks
    ensures RefWires(wf', t, refs, handle) == RefWires(wf, t, refs, handle)
  {
    if refs != [] {
      RefsSame(wf, wf', t, refs[..|refs| - 1], handle);
      ChainSame(wf, wf', t);
      if refs[|refs| - 1] in wf.tasks {
        ChainSame(wf, wf', refs[|refs| - 1]);
      }
    }
    hide Chain, StartOf, OutputOf, OutputHandle;
  }

  lemma {:induction false} InputsSame(wf: Workflow, wf': Workflow, t: string, inputs: seq<Input>)
    requires Shuffled(wf, wf') && AgentsDefined(wf) && AgentsDefined(wf') && t in wf.tasks
    ensures InputWires(wf', t, inputs) == InputWires(wf, t, inputs)
  {
    hide Shuffled, RefWires;
    if inputs != [] {
      var last := inputs[|inputs| - 1];
      InputsSame(wf, wf', t, inputs[..|inputs| - 1]);
      RefsSame(wf, wf', t, last.refs, last.param);
    }
  }

  lemma WithoutBag<T>(s: seq<T>, i: nat)
    requires i < |s|
    ensures multiset(Without(s, i)) == multiset(s) - multiset{s[i]}
  {
    assert s == s[..i] + [s[i]] + s[i + 1..];
    assert multiset(s) == multiset(s[..i]) + multiset{s[i]} + multiset(s[i + 1..]);
  }

  /** A rearrangement has the last element somewhere, and without it is a rearrangement of the rest. */
  lemma FindLast<T>(a: seq<T>, b: seq<T>) returns (i: nat)
    requires multiset(a) == multiset(b) && a != []
    ensures i < |b| && b[i] == a[|a| - 1] && multiset(a[..|a| - 1]) == multiset(Without(b, i))
  {
    var last := |a| - 1;
    assert a[last] in multiset(b);
    i :| 0 <= i < |b| && b[i] == a[last];
    WithoutBag(a, last);
    WithoutBag(b, i);
    assert Without(a, last) == a[..last];
  }

  lemma InputsSplit(wf: Workflow, t: string, inputs: seq<Input>)
    requires AgentsDefined(wf) && t in wf.tasks && inputs != []
    ensures var last := inputs[|inputs| - 1];
            multiset(InputWires(wf, t, inputs))
            == multiset(InputWires(wf, t, inputs[..|inputs| - 1])) + multiset(RefWires(wf, t, last.refs, last.param))
  {
  }

  /** One input can be wired last instead. */
  lemma {:induction false} InputLast(wf: Workflow, t: string, inputs: seq<Input>, i: nat)
    requires AgentsDefined(wf) && t in wf.tasks && i < |inputs|
    ensures multiset(InputWires(wf, t, inputs))
         == multiset(InputWires(wf, t, Without(inputs, i))) + multiset(RefWires(wf, t, inputs[i].refs, inputs[i].param))
    decreases |inputs|
  {
    hide RefWires, InputWires;
    var last := |inputs| - 1;
    var front := inputs[..last];
    InputsSplit(wf, t, inputs);
    if i == last {
      assert Without(inputs, i) == front;
    } else {
      InputLast(wf, t, front, i);
      InputsSplit(wf, t, Without(inputs, i));
      assert Without(inputs, i) == Without(front, i) + [inputs[last]];
      assert Without(inputs, i)[..last - 1] == Without(front, i);
    }
  }

  lemma {:induction false} InputsShuffled(wf: Workflow, t: string, a: seq<Input>, b: seq<Input>)
    requires AgentsDefined(wf) && t in wf.tasks && multiset(a) == multiset(b)
    ensures multiset(InputWires(wf, t, a)) == multiset(InputWires(wf, t, b))
    decreases |a|
  {
    hide RefWires, InputWires, Without;
    assert |a| == |multiset(a)| && |b| == |multiset(b)|;
    if a != [] {
      var i := FindLast(a, b);
      InputLast(wf, t, b, i);
      InputsSplit(wf, t, a);
      InputsShuffled(wf, t, a[..|a| - 1], Without(b, i));
    }
  }

  lemma {:induction false} ReferencesShuffled(wf: Workflow, wf': Workflow, ids: seq<string>)
    requires Shuffled(wf, wf') && AgentsDefined(wf) && AgentsDefined(wf') && AllTasks(wf, ids) && AllTasks(wf', ids)
    ensures multiset(ReferenceWires(wf', ids)) == multiset(ReferenceWires(wf, ids))
  {
    hide RefWires, InputWires;
    if ids != [] {
      var t := ids[|ids| - 1];
      ReferencesShuffled(wf, wf', ids[..|ids| - 1]);
      assert SameButInputOrder(wf.tasks[t], wf'.tasks[t]);
      InputsShuffled(wf, t, wf'.tasks[t].inputs, wf.tasks[t].inputs);
      InputsSame(wf, wf', t, wf'.tasks[t].inputs);
      RefsSame(wf, wf', t, wf.tasks[t].context, ContextHandle());
    }
    hide ContextHandle;
  }

  lemma {:induction false} OrderSame(wf: Workflow, wf': Workflow, order: seq<string>)
    requires Shuffled(wf, wf') && AgentsDefined(wf) && AgentsDefined(wf') && AllTasks(wf, order) && AllTasks(wf', order)
    ensures OrderWires(wf', order) == OrderWires(wf, order)
  {
    if |order| > 1 {
      var last := |order| - 1;
      OrderSame(wf, wf', order[..last]);
      ChainSame(wf, wf', order[last - 1]);
      ChainSame(wf, wf', order[last]);
    }
    hide Chain, StartOf, OutputOf, OutputHandle, InputHandle;
  }

  lemma {:induction false} ConditionsSame(wf: Workflow, wf': Workflow, t: string, deps: seq<string>)
    requires Shuffled(wf, wf') && AgentsDefined(wf) && AgentsDefined(wf') && t in wf.tasks
    ensures ConditionalWires(wf', t, deps) == ConditionalWires(wf, t, deps)
  {
    if deps != [] {
      ConditionsSame(wf, wf', t, deps[..|deps| - 1]);
      ChainSame(wf, wf', t);
      if deps[|deps| - 1] in wf.tasks {
        ChainSame(wf, wf', deps[|deps| - 1]);
      }
    }
    hide Chain, StartOf, OutputOf, OutputHandle, InputHandle, Render;
  }

  lemma {:induction false} CustomSame(wf: Workflow, wf': Workflow, execution: map<string, Dependencies>, ids: seq<string>)
    requires Shuffled(wf, wf') && AgentsDefined(wf) && AgentsDefined(wf')
    requires forall i :: 0 <= i < |ids| ==> ids[i] in execution
    ensures CustomWires(wf', execution, ids) == CustomWires(wf, execution, ids)
  {
    hide RefWires, ConditionalWires, InputHandle;
    if ids != [] {
      var t := ids[|ids| - 1];
      CustomSame(wf, wf', execution, ids[..|ids| - 1]);
      if t in wf.tasks {
        ConditionsSame(wf, wf', t, execution[t].dependsOn);
        RefsSame(wf, wf', t, execution[t].dependsOn, InputHandle());
      }
    }
  }

  lemma {:induction false} ConditionNodesSame(wf: Workflow, wf': Workflow, nodes: seq<NodeDef>, t: string, deps: seq<string>)
    requires wf'.tasks.Keys == wf.tasks.Keys
    ensures WithConditionNodes(wf', nodes, t, deps) == WithConditionNodes(wf, nodes, t, deps)
  {
    hide RenderNode, WithNode;
    if deps != [] {
      ConditionNodesSame(wf, wf', nodes, t, deps[..|deps| - 1]);
      assert deps[|deps| - 1] in wf.tasks.Keys <==> deps[|deps| - 1] in wf'.tasks.Keys;
    }
  }

  lemma {:induction false} CustomNodesSame(wf: Workflow, wf': Workflow, execution: map<string, Dependencies>,
                                           nodes: seq<NodeDef>, ids: seq<string>)
    requires wf'.tasks.Keys == wf.tasks.Keys && forall i :: 0 <= i < |ids| ==> ids[i] in execution
    ensures WithCustomNodes(wf', execution, nodes, ids) == WithCustomNodes(wf, execution, nodes, ids)
  {
    hide WithConditionNodes;
    if ids != [] {
      var t := ids[|ids| - 1];
      CustomNodesSame(wf, wf', execution, nodes, ids[..|ids| - 1]);
      assert t in wf.tasks.Keys <==> t in wf'.tasks.Keys;
      ConditionNodesSame(wf, wf', WithCustomNodes(wf, execution, nodes, ids[..|ids| - 1]), t, execution[t].dependsOn);
    }
  }

  lemma {:induction false} RootSame(wf: Workflow, wf': Workflow, execution: map<string, Dependencies>, ids: seq<string>)
    requires Shuffled(wf, wf') && AgentsDefined(wf) && AgentsDefined(wf') && AllTasks(wf, ids) && AllTasks(wf', ids)
    ensures RootEntry(wf', execution, ids) == RootEntry(wf, execution, ids)
  {
    if ids != [] {
      ChainSame(wf, wf', ids[0]);
      RootSame(wf, wf', execution, ids[1..]);
    }
    hide Chain, StartOf, OutputOf, Render;
  }

  lemma RenderWithout(ws: seq<Wire>, i: nat)
    requires i < |ws|
    ensures multiset(RenderWires(ws)) == multiset(RenderWires(Without(ws, i))) + multiset{RenderWire(ws[i])}
  {
    hide RenderWire;
    WithoutBag(RenderWires(ws), i);
    assert RenderWires(Without(ws, i)) == Without(RenderWires(ws), i);
    assert RenderWires(ws)[i] in multiset(RenderWires(ws));
  }

  lemma {:induction false} RenderShuffled(ws: seq<Wire>, vs: seq<Wire>)
    requires multiset(ws) == multiset(vs)
    ensures multiset(RenderWires(ws)) == multiset(RenderWires(vs))
    decreases |ws|
  {
    hide RenderWire, RenderWires;
    assert |ws| == |multiset(ws)| && |vs| == |multiset(vs)|;
    if ws != [] {
      var last := |ws| - 1;
      var i := FindLast(ws, vs);
      assert Without(ws, last) == ws[..last];
      hide Without;
      RenderWithout(ws, last);
      RenderWithout(vs, i);
      RenderShuffled(ws[..last], Without(vs, i));
    }
  }

  lemma StrategySame(wf: Workflow, wf': Workflow, strategy: Strategy, execIDs: seq<string>)
    requires Shuffled(wf, wf') && AgentsDefined(wf) && AgentsDefined(wf')
    ensures StrategyWires(wf', strategy, execIDs) == StrategyWires(wf, strategy, execIDs)
  {
    hide OrderWires, CustomWires;
    match strategy {
      case SequentialStrategy =>
        assert forall i :: 0 <= i < |wf.taskOrder| ==> (wf.taskOrder[i] in wf.tasks.Keys <==> wf.taskOrder[i] in wf'.tasks.Keys);
        assert AllTasks(wf, wf.taskOrder) <==> AllTasks(wf', wf.taskOrder);
        if AllTasks(wf, wf.taskOrder) {
          OrderSame(wf, wf', wf.taskOrder);
        }
      case CustomStrategy =>
        if wf.execution.Some? && forall i :: 0 <= i < |execIDs| ==> execIDs[i] in wf.execution.value {
          CustomSame(wf, wf', wf.execution.value, execIDs);
        }
    }
  }

  /** Both compile to the same wires, up to the order of creation. */
  lemma WiresShuffled(wf: Workflow, wf': Workflow, strategy: Strategy, taskIDs: seq<string>, execIDs: seq<string>)
    requires Shuffled(wf, wf') && AgentsDefined(wf) && AgentsDefined(wf') && AllTasks(wf, taskIDs) && AllTasks(wf', taskIDs)
    ensures multiset(RenderWires(CompiledWires(wf', strategy, taskIDs, execIDs)))
         == multiset(RenderWires(CompiledWires(wf, strategy, taskIDs, execIDs)))
  {
    TasksSame(wf, wf', taskIDs);
    ReferencesShuffled(wf, wf', taskIDs);
    StrategySame(wf, wf', strategy, execIDs);
    RenderShuffled(CompiledWires(wf', strategy, taskIDs, execIDs), CompiledWires(wf, strategy, taskIDs, execIDs));
    hide Shuffled, TaskWires, ReferenceWires, StrategyWires, RenderWires;
  }

  lemma NodesSame(wf: Workflow, wf': Workflow, strategy: Strategy, taskIDs: seq<string>, execIDs: seq<string>)
    requires Shuffled(wf, wf') && AgentsDefined(wf) && AgentsDefined(wf') && AllTasks(wf, taskIDs) && AllTasks(wf', taskIDs)
    ensures CompiledNodes(wf', strategy, taskIDs, execIDs) == CompiledNodes(wf, strategy, taskIDs, execIDs)
  {
    TasksSame(wf, wf', taskIDs);
    hide TaskNodes, WithCustomNodes, RenderNodes;
    if wf.execution.Some? && forall i :: 0 <= i < |execIDs| ==> execIDs[i] in wf.execution.value {
      CustomNodesSame(wf, wf', wf.execution.value, RenderNodes(TaskNodes(wf, taskIDs)), execIDs);
    }
  }

  lemma AllTasksSame(wf: Workflow, wf': Workflow, ids: seq<string>)
    requires wf'.tasks.Keys == wf.tasks.Keys
    ensures AllTasks(wf', ids) <==> AllTasks(wf, ids)
  {
    assert forall i :: 0 <= i < |ids| ==> (ids[i] in wf.tasks.Keys <==> ids[i] in wf'.tasks.Keys);
  }

  lemma EntrySame(wf: Workflow, wf': Workflow, strategy: Strategy, taskIDs: seq<string>)
    requires Shuffled(wf, wf') && AgentsDefined(wf) && AgentsDefined(wf') && AllTasks(wf, taskIDs) && AllTasks(wf', taskIDs)
    ensures CompiledEntry(wf', strategy, taskIDs) == CompiledEntry(wf, strategy, taskIDs)
  {
    AllTasksSame(wf, wf', wf.taskOrder);
    if wf.taskOrder != [] && AllTasks(wf, wf.taskOrder) {
      ChainSame(wf, wf', wf.taskOrder[0]);
    }
    if wf.execution.Some? {
      RootSame(wf, wf', wf.execution.value, taskIDs);
    }
    hide RootEntry, Chain, StartOf, OutputOf, Render;
  }

  /**
   Compiling twice, with the inputs of each task walked in two different orders: both attempts succeed,
   with the same definition, or both fail.
   */
  method CompileTwice(wf: Workflow, wf': Workflow, strategy: Strategy, taskIDs: seq<string>, execIDs: seq<string>)
    returns (r: Result<GraphDefinition, CompileError>, r': Result<GraphDefinition, CompileError>)
    requires Shuffled(wf, wf') && Enumerates(wf, taskIDs, execIDs)
    ensures r.Ok? <==> r'.Ok?
    ensures r.Ok? ==> r' == r
  {
    hide Ids, Ordered, RenderWires, RenderAll, CompiledWires, CompiledNames, CompiledEntry, DistinctIds, CompiledNodes;
    ShuffledAgents(wf, wf');
    AllTasksSame(wf, wf', wf.taskOrder);
    AllTasksSame(wf, wf', taskIDs);
    r := Compile(wf, strategy, taskIDs, execIDs);
    r' := Compile(wf', strategy, taskIDs, execIDs);
    if r.Ok? {
      WiresShuffled(wf, wf', strategy, taskIDs, execIDs);
      OrderIsUnique(r.value.edges, r'.value.edges);
      EntrySame(wf, wf', strategy, taskIDs);
      NodesSame(wf, wf', strategy, taskIDs, execIDs);
    }
  }
}
