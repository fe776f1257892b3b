/** Exactly which edges and nodes a workflow compiles to, handles and types included. */
module CompiledWiring {
  import opened Sequences
  import opened Definitions
  import opened AgentWorkflows
  import opened AgentCompiler
  import opened CompilerLaws
  import opened CompiledGraphs

  // ----- a task's own nodes

  /** The task itself comes after its standalone tools and before its human gate. */
  lemma ChainEnds(wf: Workflow, t: string)
    requires AgentsDefined(wf) && t in wf.tasks
    ensures OutputOf(wf, t) == if wf.tasks[t].humanReview then GateNode(t, wf.tasks[t].agent)
                               else TaskNode(t, wf.tasks[t].agent)
    ensures var tools := wf.agents[wf.tasks[t].agent].tools;
            || (StartOf(wf, t) == TaskNode(t, wf.tasks[t].agent)
                && forall i :: 0 <= i < |tools| ==> !wf.toolMode(tools[i]).Standalone?)
            || (exists i :: 0 <= i < |tools| && wf.toolMode(tools[i]).Standalone? && StartOf(wf, t) == ToolNode(t, tools[i])
                            && forall j :: 0 <= j < i ==> !wf.toolMode(tools[j]).Standalone?)
  {
    FirstStandalone(wf, wf.agents[wf.tasks[t].agent].tools);
  }

  lemma {:induction false} FirstStandalone(wf: Workflow, tools: seq<string>)
    ensures var kept := StandaloneTools(wf, tools);
            if kept == [] then forall i :: 0 <= i < |tools| ==> !wf.toolMode(tools[i]).Standalone?
            else exists i :: 0 <= i < |tools| && wf.toolMode(tools[i]).Standalone? && kept[0] == tools[i]
                             && forall j :: 0 <= j < i ==> !wf.toolMode(tools[j]).Standalone?
  {
    if tools != [] {
      var front, last := tools[..|tools| - 1], |tools| - 1;
      FirstStandalone(wf, front);
      var kept := StandaloneTools(wf, front);
      if kept == [] {
        assert forall i :: 0 <= i < last ==> tools[i] == front[i];
      } else {
        var i :| 0 <= i < |front| && wf.toolMode(front[i]).Standalone? && kept[0] == front[i]
                 && forall j :: 0 <= j < i ==> !wf.toolMode(front[j]).Standalone?;
        assert tools[i] == front[i] && forall j :: 0 <= j < i ==> tools[j] == front[j];
      }
    }
  }

  // ----- which wires there are

  /** Between consecutive nodes of a task; the task itself takes its last tool's output as context. */
  ghost predicate IsChainWire(wf: Workflow, w: Wire, t: string, i: nat)
    requires AgentsDefined(wf)
  {
    && t in wf.tasks && i + 1 < |Chain(wf, t)|
    && w == Wire(Chain(wf, t)[i], "output", Chain(wf, t)[i + 1],
                 if Chain(wf, t)[i + 1].TaskNode? then "context" else "input")
  }

  /** From the output of u to the start of t, at the given handle. */
  ghost predicate Hands(wf: Workflow, w: Wire, u: string, t: string, handle: string)
    requires AgentsDefined(wf)
  {
    u in wf.tasks && t in wf.tasks && w == Wire(OutputOf(wf, u), "output", StartOf(wf, t), handle)
  }

  /** An input template of t mentions u: the edge arrives at the input's own name. */
  ghost predicate IsInputWire(wf: Workflow, w: Wire, t: string, i: nat, u: string)
    requires AgentsDefined(wf)
  {
    && t in wf.tasks && i < |wf.tasks[t].inputs| && u in wf.tasks[t].inputs[i].refs
    && Hands(wf, w, u, t, wf.tasks[t].inputs[i].param)
  }

  ghost predicate IsContextWire(wf: Workflow, w: Wire, t: string, u: string)
    requires AgentsDefined(wf)
  {
    t in wf.tasks && u in wf.tasks[t].context && Hands(wf, w, u, t, "context")
  }

  /** A declared dependency of t on u: direct, or through a condition node whose exit is named after the start of t. */
  ghost predicate IsDependencyWire(wf: Workflow, w: Wire, t: string, u: string)
    requires AgentsDefined(wf)
  {
    && t in wf.tasks && u in wf.tasks
    && wf.execution.Some? && t in wf.execution.value && u in wf.execution.value[t].dependsOn
    && if wf.execution.value[t].condition == "" then Hands(wf, w, u, t, "input")
       else
         || w == Wire(OutputOf(wf, u), "output", ConditionNode(u, t), "input")
         || w == Wire(ConditionNode(u, t), Render(StartOf(wf, t)), StartOf(wf, t), "input")
  }

  ghost predicate IsCommonWire(wf: Workflow, w: Wire)
    requires AgentsDefined(wf)
  {
    || (exists t, i: nat :: IsChainWire(wf, w, t, i))
    || (exists t, i: nat, u :: IsInputWire(wf, w, t, i, u))
    || (exists t, u :: IsContextWire(wf, w, t, u))
  }

  ghost predicate IsWired(wf: Workflow, w: Wire)
    requires AgentsDefined(wf)
  {
    IsCommonWire(wf, w) || exists t, u :: IsDependencyWire(wf, w, t, u)
  }

  lemma {:induction false} ChainWireIff(wf: Workflow, t: string, n: nat, w: Wire)
    requires AgentsDefined(wf) && t in wf.tasks && n <= |Chain(wf, t)|
    ensures w in ChainWires(Chain(wf, t)[..n]) <==> exists i: nat :: i + 1 < n && IsChainWire(wf, w, t, i)
  {
    hide Chain;
    var names := Chain(wf, t);
    if n >= 2 {
      ChainWireIff(wf, t, n - 1, w);
      assert names[..n][..n - 1] == names[..n - 1];
      assert IsChainWire(wf, w, t, n - 2)
        <==> w == Wire(names[n - 2], OutputHandle(), names[n - 1], LinkHandle(names[n - 1]));
      hide IsChainWire, ChainWires;
    }
  }

  lemma {:induction false} TaskWireIff(wf: Workflow, ids: seq<string>, w: Wire)
    requires AgentsDefined(wf) && AllTasks(wf, ids)
    ensures w in TaskWires(wf, ids) <==> exists t, i: nat :: t in ids && IsChainWire(wf, w, t, i)
  {
    hide Chain, ChainWires;
    if ids != [] {
      var front, t := ids[..|ids| - 1], ids[|ids| - 1];
      TaskWireIff(wf, front, w);
      ChainWireIff(wf, t, |Chain(wf, t)|, w);
      assert Chain(wf, t)[..|Chain(wf, t)|] == Chain(wf, t);
      assert ids == front + [t];
      assert forall i: nat :: IsChainWire(wf, w, t, i) ==> i + 1 < |Chain(wf, t)|;
      hide IsChainWire;
    }
  }

  lemma {:induction false} RefWireIff(wf: Workflow, t: string, refs: seq<string>, handle: string, w: Wire)
    requires AgentsDefined(wf) && t in wf.tasks
    ensures w in RefWires(wf, t, refs, handle) <==> exists u :: u in refs && Hands(wf, w, u, t, handle)
  {
    hide Chain, OutputOf, StartOf;
    if refs != [] {
      var front, u := refs[..|refs| - 1], refs[|refs| - 1];
      RefWireIff(wf, t, front, handle, w);
      assert refs == front + [u];
      assert Hands(wf, w, u, t, handle) <==> u in wf.tasks && w == Wire(OutputOf(wf, u), OutputHandle(), StartOf(wf, t), handle);
      hide Hands;
    }
  }

  lemma {:induction false} InputWireIff(wf: Workflow, t: string, n: nat, w: Wire)
    requires AgentsDefined(wf) && t in wf.tasks && n <= |wf.tasks[t].inputs|
    ensures w in InputWires(wf, t, wf.tasks[t].inputs[..n]) <==> exists i: nat, u :: i < n && IsInputWire(wf, w, t, i, u)
  {
    hide Chain, RefWires, Hands;
    var inputs := wf.tasks[t].inputs;
    if n > 0 {
      var last: nat := n - 1;
      InputWireIff(wf, t, last, w);
      RefWireIff(wf, t, inputs[last].refs, inputs[last].param, w);
      assert inputs[..n][..last] == inputs[..last];
      assert forall u :: IsInputWire(wf, w, t, last, u) <==> u in inputs[last].refs && Hands(wf, w, u, t, inputs[last].param);
      if w in RefWires(wf, t, inputs[last].refs, inputs[last].param) {
        var u :| u in inputs[last].refs && Hands(wf, w, u, t, inputs[last].param);
        assert IsInputWire(wf, w, t, last, u);
      }
      hide IsInputWire;
    }
  }

  lemma {:induction false} ReferenceWireIff(wf: Workflow, ids: seq<string>, w: Wire)
    requires AgentsDefined(wf) && AllTasks(wf, ids)
    ensures w in ReferenceWires(wf, ids) <==>
              || (exists t, i: nat, u :: t in ids && IsInputWire(wf, w, t, i, u))
              || (exists t, u :: t in ids && IsContextWire(wf, w, t, u))
  {
    hide Chain, RefWires, InputWires, Hands;
    if ids != [] {
      var front, t := ids[..|ids| - 1], ids[|ids| - 1];
      ReferenceWireIff(wf, front, w);
      var inputs, context := wf.tasks[t].inputs, RefWires(wf, t, wf.tasks[t].context, ContextHandle());
      InputWireIff(wf, t, |inputs|, w);
      assert inputs[..|inputs|] == inputs;
      RefWireIff(wf, t, wf.tasks[t].context, ContextHandle(), w);
      assert ids == front + [t];
      assert ContextHandle() == "context";
      assert forall u :: IsContextWire(wf, w, t, u) <==> u in wf.tasks[t].context && Hands(wf, w, u, t, "context");
      if w in context {
        var u :| u in wf.tasks[t].context && Hands(wf, w, u, t, "context");
        assert IsContextWire(wf, w, t, u);
      }
      assert w in InputWires(wf, t, inputs) <==> exists i: nat, u :: IsInputWire(wf, w, t, i, u);
      hide IsInputWire, IsContextWire;
    }
  }

  lemma {:induction false} ConditionalWireIff(wf: Workflow, t: string, deps: seq<string>, w: Wire)
    requires AgentsDefined(wf) && t in wf.tasks
    ensures w in ConditionalWires(wf, t, deps) <==>
              exists u :: u in deps && u in wf.tasks && w in ConditionWires(wf, u, t)
  {
    hide Chain, ConditionWires;
    if deps != [] {
      var front, u := deps[..|deps| - 1], deps[|deps| - 1];
      ConditionalWireIff(wf, t, front, w);
      assert deps == front + [u];
    }
  }

  lemma DependencyWireIff(wf: Workflow, t: string, w: Wire)
    requires AgentsDefined(wf) && t in wf.tasks && wf.execution.Some? && t in wf.execution.value
    ensures w in DependencyWires(wf, t, wf.execution.value[t]) <==> exists u :: IsDependencyWire(wf, w, t, u)
  {
    var d := wf.execution.value[t];
    hide Chain, ConditionalWires, RefWires, OutputOf, StartOf, Render;
    if d.condition != "" {
      ConditionalWireIff(wf, t, d.dependsOn, w);
      assert forall u :: IsDependencyWire(wf, w, t, u) <==>
        u in d.dependsOn && u in wf.tasks && w in ConditionWires(wf, u, t);
      if w in ConditionalWires(wf, t, d.dependsOn) {
        var u :| u in d.dependsOn && u in wf.tasks && w in ConditionWires(wf, u, t);
        assert IsDependencyWire(wf, w, t, u);
      }
    } else {
      assert InputHandle() == "input";
      RefWireIff(wf, t, d.dependsOn, InputHandle(), w);
      assert forall u :: IsDependencyWire(wf, w, t, u) <==> u in d.dependsOn && Hands(wf, w, u, t, "input");
      if w in RefWires(wf, t, d.dependsOn, InputHandle()) {
        var u :| u in d.dependsOn && Hands(wf, w, u, t, "input");
        assert IsDependencyWire(wf, w, t, u);
      }
    }
  }

  lemma {:induction false} CustomWireIff(wf: Workflow, ids: seq<string>, w: Wire)
    requires AgentsDefined(wf) && wf.execution.Some?
    requires forall i :: 0 <= i < |ids| ==> ids[i] in wf.execution.value
    ensures w in CustomWires(wf, wf.execution.value, ids) <==> exists t, u :: t in ids && IsDependencyWire(wf, w, t, u)
  {
    hide Chain, DependencyWires;
    if ids != [] {
      var front, t := ids[..|ids| - 1], ids[|ids| - 1];
      CustomWireIff(wf, front, w);
      if t in wf.tasks {
        DependencyWireIff(wf, t, w);
      }
      assert ids == front + [t];
      assert t !in wf.tasks ==> forall u :: !IsDependencyWire(wf, w, t, u);
      hide IsDependencyWire;
    }
  }

  lemma CommonWiresAre(wf: Workflow, taskIDs: seq<string>, execIDs: seq<string>, w: Wire)
    requires AgentsDefined(wf) && Enumerates(wf, taskIDs, execIDs) && AllTasks(wf, taskIDs)
    ensures w in TaskWires(wf, taskIDs) + ReferenceWires(wf, taskIDs) <==> IsCommonWire(wf, w)
  {
    TaskWireIff(wf, taskIDs, w);
    ReferenceWireIff(wf, taskIDs, w);
    assert forall t :: t in taskIDs <==> t in Elements(taskIDs);
    assert forall t, i: nat :: IsChainWire(wf, w, t, i) ==> t in taskIDs;
    assert forall t, i: nat, u :: IsInputWire(wf, w, t, i, u) ==> t in taskIDs;
    assert forall t, u :: IsContextWire(wf, w, t, u) ==> t in taskIDs;
    hide IsChainWire, IsInputWire, IsContextWire, TaskWires, ReferenceWires;
  }

  /** Under the custom strategy the compiled edges, by name and handle, are exactly these. */
  lemma CompiledWiresAre(wf: Workflow, taskIDs: seq<string>, execIDs: seq<string>, w: Wire)
    requires AgentsDefined(wf) && Enumerates(wf, taskIDs, execIDs) && AllTasks(wf, taskIDs)
    ensures w in CompiledWires(wf, CustomStrategy, taskIDs, execIDs) <==> IsWired(wf, w)
  {
    CommonWiresAre(wf, taskIDs, execIDs, w);
    if wf.execution.Some? {
      assert forall i :: 0 <= i < |execIDs| ==> execIDs[i] in Elements(execIDs);
      CustomWireIff(wf, execIDs, w);
      assert forall t :: t in wf.execution.value ==> t in Elements(execIDs);
      assert forall t, u :: IsDependencyWire(wf, w, t, u) ==> t in execIDs;
    }
    hide IsCommonWire, IsDependencyWire, TaskWires, ReferenceWires, CustomWires;
  }

  /** Consecutive tasks of the order. */
  ghost predicate IsOrderWire(wf: Workflow, w: Wire, i: nat)
    requires AgentsDefined(wf)
  {
    i + 1 < |wf.taskOrder| && Hands(wf, w, wf.taskOrder[i], wf.taskOrder[i + 1], "input")
  }

  lemma {:induction false} OrderWireIff(wf: Workflow, n: nat, w: Wire)
    requires AgentsDefined(wf) && AllTasks(wf, wf.taskOrder) && n <= |wf.taskOrder|
    ensures w in OrderWires(wf, wf.taskOrder[..n]) <==> exists i: nat :: i + 1 < n && IsOrderWire(wf, w, i)
  {
    hide Chain, StartOf, OutputOf;
    var order := wf.taskOrder;
    if n >= 2 {
      OrderWireIff(wf, n - 1, w);
      assert order[..n][..n - 1] == order[..n - 1];
      assert IsOrderWire(wf, w, n - 2)
        <==> w == Wire(OutputOf(wf, order[n - 2]), OutputHandle(), StartOf(wf, order[n - 1]), InputHandle());
      hide IsOrderWire;
    }
  }

  /** Under the sequential strategy the compiled edges, by name and handle, are exactly these. */
  lemma SequentialWiresAre(wf: Workflow, taskIDs: seq<string>, execIDs: seq<string>, w: Wire)
    requires AgentsDefined(wf) && Enumerates(wf, taskIDs, execIDs) && AllTasks(wf, taskIDs) && AllTasks(wf, wf.taskOrder)
    ensures w in CompiledWires(wf, SequentialStrategy, taskIDs, execIDs) <==>
              IsCommonWire(wf, w) || exists i: nat :: IsOrderWire(wf, w, i)
  {
    CommonWiresAre(wf, taskIDs, execIDs, w);
    OrderWireIff(wf, |wf.taskOrder|, w);
    assert wf.taskOrder[..|wf.taskOrder|] == wf.taskOrder;
    assert forall i: nat :: IsOrderWire(wf, w, i) ==> i + 1 < |wf.taskOrder|;
    hide IsCommonWire, IsOrderWire, TaskWires, ReferenceWires, OrderWires;
  }

  // ----- where edges arrive

  lemma StartsDiffer(wf: Workflow, t: string, v: string)
    requires AgentsDefined(wf) && t in wf.tasks && v in wf.tasks && StartOf(wf, t) == StartOf(wf, v)
    ensures t == v
  {
    ChainMembers(wf, t, 0);
    ChainMembers(wf, v, 0);
  }

  lemma ChainWireMissesStart(wf: Workflow, w: Wire, v: string, i: nat, t: string)
    requires AgentsDefined(wf) && ChainsDistinct(wf) && t in wf.tasks && IsChainWire(wf, w, v, i)
    ensures w.target != StartOf(wf, t)
  {
    ChainMembers(wf, v, i + 1);
    ChainMembers(wf, t, 0);
    hide Chain;
    assert NoDup(Chain(wf, v));
  }

  /** A wire to the start of a task comes from a dependency. */
  lemma StartWireDepends(wf: Workflow, w: Wire, t: string)
    requires AgentsDefined(wf) && ChainsDistinct(wf) && t in wf.tasks && IsWired(wf, w) && w.target == StartOf(wf, t)
    ensures exists u :: u in wf.tasks && DependsOn(wf, t, u)
  {
    if v, i: nat :| IsChainWire(wf, w, v, i) {
      ChainWireMissesStart(wf, w, v, i, t);
    } else if v, i: nat, u :| IsInputWire(wf, w, v, i, u) {
      StartsDiffer(wf, t, v);
      assert RefersTo(wf, t, u);
    } else if v, u :| IsContextWire(wf, w, v, u) {
      StartsDiffer(wf, t, v);
      assert RefersTo(wf, t, u);
    } else {
      var v, u :| IsDependencyWire(wf, w, v, u);
      ChainMembers(wf, t, 0);
      StartsDiffer(wf, t, v);
      assert DependsOn(wf, t, u);
    }
  }

  lemma WireOfDependency(wf: Workflow, t: string, u: string) returns (w: Wire)
    requires AgentsDefined(wf) && t in wf.tasks && u in wf.tasks && DependsOn(wf, t, u)
    ensures IsWired(wf, w) && w.target == StartOf(wf, t)
  {
    hide Chain, StartOf, OutputOf, Render;
    if i :| 0 <= i < |wf.tasks[t].inputs| && u in wf.tasks[t].inputs[i].refs {
      w := Wire(OutputOf(wf, u), "output", StartOf(wf, t), wf.tasks[t].inputs[i].param);
      assert IsInputWire(wf, w, t, i, u);
    } else if u in wf.tasks[t].context {
      w := Wire(OutputOf(wf, u), "output", StartOf(wf, t), "context");
      assert IsContextWire(wf, w, t, u);
    } else if wf.execution.value[t].condition == "" {
      w := Wire(OutputOf(wf, u), "output", StartOf(wf, t), "input");
      assert IsDependencyWire(wf, w, t, u);
    } else {
      w := Wire(ConditionNode(u, t), Render(StartOf(wf, t)), StartOf(wf, t), "input");
      assert IsDependencyWire(wf, w, t, u);
    }
  }

  lemma WireTargetIsCompiled(wf: Workflow, w: Wire)
    requires AgentsDefined(wf) && IsWired(wf, w)
    ensures IsCompiled(wf, CustomStrategy, w.target)
  {
    if v, i: nat :| IsChainWire(wf, w, v, i) {
      ChainMembers(wf, v, i + 1);
    } else if v, i: nat, u :| IsInputWire(wf, w, v, i, u) {
      ChainMembers(wf, v, 0);
    } else if v, u :| IsContextWire(wf, w, v, u) {
      ChainMembers(wf, v, 0);
    } else {
      var v, u :| IsDependencyWire(wf, w, v, u);
      ChainMembers(wf, v, 0);
    }
    hide Chain;
  }

  ghost predicate Arrives(gd: GraphDefinition, id: string) {
    exists e :: e in gd.edges && e.target == id
  }

  /** In the compiled definition an edge arrives at a task exactly when it depends on a defined task. */
  lemma StartEnteredIff(wf: Workflow, taskIDs: seq<string>, execIDs: seq<string>, gd: GraphDefinition, t: string)
    requires AgentsDefined(wf) && Enumerates(wf, taskIDs, execIDs) && AllTasks(wf, taskIDs) && DistinctIds(wf, CustomStrategy)
    requires multiset(gd.edges) == multiset(RenderWires(CompiledWires(wf, CustomStrategy, taskIDs, execIDs)))
    requires t in wf.tasks
    ensures Arrives(gd, Render(StartOf(wf, t))) <==> exists u :: u in wf.tasks && DependsOn(wf, t, u)
  {
    var wires, start := CompiledWires(wf, CustomStrategy, taskIDs, execIDs), StartOf(wf, t);
    assert ChainsDistinct(wf);
    ChainMembers(wf, t, 0);
    hide Chain, Render, RenderWires, CompiledWires, IsWired, DependsOn, InUniverse;
    if Arrives(gd, Render(start)) {
      var e :| e in gd.edges && e.target == Render(start);
      assert e in multiset(RenderWires(wires));
      RenderedWire(wires, e);
      var w :| w in wires && e == RenderWire(w);
      CompiledWiresAre(wf, taskIDs, execIDs, w);
      WireTargetIsCompiled(wf, w);
      assert w.target == start;
      StartWireDepends(wf, w, t);
    }
    if u :| u in wf.tasks && DependsOn(wf, t, u) {
      var w := WireOfDependency(wf, t, u);
      CompiledWiresAre(wf, taskIDs, execIDs, w);
      RenderedWire(wires, RenderWire(w));
      assert RenderWire(w) in multiset(gd.edges);
    }
  }

  /** The chosen entry task: the first without declared dependencies, and entered exactly when it refers to a task. */
  lemma EntryIsARoot(wf: Workflow, taskIDs: seq<string>, execIDs: seq<string>, gd: GraphDefinition) returns (i: nat)
    requires AgentsDefined(wf) && Enumerates(wf, taskIDs, execIDs) && AllTasks(wf, taskIDs) && DistinctIds(wf, CustomStrategy)
    requires multiset(gd.edges) == multiset(RenderWires(CompiledWires(wf, CustomStrategy, taskIDs, execIDs)))
    requires wf.execution.Some? && gd.entry != "" && EntersAtFirstRoot(wf, wf.execution.value, taskIDs, gd.entry)
    ensures i < |taskIDs| && gd.entry == Render(StartOf(wf, taskIDs[i]))
    ensures taskIDs[i] !in wf.execution.value || wf.execution.value[taskIDs[i]].dependsOn == []
    ensures forall j :: 0 <= j < i ==> Declares(wf.execution.value, taskIDs[j])
    ensures Arrives(gd, gd.entry) <==> exists u :: u in wf.tasks && RefersTo(wf, taskIDs[i], u)
  {
    hide Chain, Render, RenderWires, CompiledWires, DistinctIds, RefersTo;
    var k :| 0 <= k < |taskIDs| && !Declares(wf.execution.value, taskIDs[k])
             && gd.entry == Render(StartOf(wf, taskIDs[k]))
             && forall j :: 0 <= j < k ==> Declares(wf.execution.value, taskIDs[j]);
    i := k;
    StartEnteredIff(wf, taskIDs, execIDs, gd, taskIDs[i]);
    assert forall u :: DependsOn(wf, taskIDs[i], u) <==> RefersTo(wf, taskIDs[i], u);
    hide DependsOn, Arrives;
  }

  // ----- node types

  /** The node a task, a gate, a standalone tool or a guarded dependency gives rise to. */
  ghost predicate IsNode(wf: Workflow, d: NodeDef, t: string)
    requires AgentsDefined(wf)
  {
    && t in wf.tasks
    && var agent := wf.tasks[t].agent;
       || d == NodeDef(t + "__" + agent, "llm_prompt")
       || (wf.tasks[t].humanReview && d == NodeDef(t + "__" + agent + "__hitl", "human"))
       || (exists tool :: tool in wf.agents[agent].tools && wf.toolMode(tool).Standalone? && d == NodeDef(t + "__" + tool, tool))
       || (exists u :: u in wf.tasks && IsGuarded(wf, u, t) && d == NodeDef(u + "__cond__" + t, "conditional"))
  }

  lemma {:induction false} StandaloneIff(wf: Workflow, tools: seq<string>, tool: string)
    ensures tool in StandaloneTools(wf, tools) <==> tool in tools && wf.toolMode(tool).Standalone?
  {
    if tools != [] {
      StandaloneIff(wf, tools[..|tools| - 1], tool);
      SplitLast(tools);
    }
  }

  lemma ToolNamesIff(t: string, tools: seq<string>, name: Name)
    ensures name in ToolNames(t, tools) <==> name.ToolNode? && name.task == t && name.tool in tools
  {
    if name.ToolNode? && name.task == t && name.tool in tools {
      var i :| 0 <= i < |tools| && tools[i] == name.tool;
      assert ToolNames(t, tools)[i] == name;
    }
  }

  /** The names of one task, with what each is rendered to. */
  lemma NamedNode(wf: Workflow, name: Name)
    requires AgentsDefined(wf) && IsCompiled(wf, CustomStrategy, name)
    ensures name.task in wf.tasks && IsNode(wf, RenderNode(name), name.task)
  {
    if !name.ConditionNode? {
      var t := name.task;
      ToolNamesIff(t, ToolsOf(wf, t), name);
      if name.ToolNode? {
        StandaloneIff(wf, wf.agents[wf.tasks[t].agent].tools, name.tool);
      }
    }
  }

  lemma NodeIsNamed(wf: Workflow, d: NodeDef, t: string) returns (name: Name)
    requires AgentsDefined(wf) && IsNode(wf, d, t)
    ensures IsCompiled(wf, CustomStrategy, name) && d == RenderNode(name)
  {
    var agent, chain := wf.tasks[t].agent, Chain(wf, t);
    var tools := ToolsOf(wf, t);
    assert chain[|tools|] == TaskNode(t, agent);
    if d == NodeDef(t + "__" + agent, "llm_prompt") {
      name := TaskNode(t, agent);
    } else if wf.tasks[t].humanReview && d == NodeDef(t + "__" + agent + "__hitl", "human") {
      name := GateNode(t, agent);
      assert chain[|tools| + 1] == name;
    } else if tool :| tool in wf.agents[agent].tools && wf.toolMode(tool).Standalone? && d == NodeDef(t + "__" + tool, tool) {
      name := ToolNode(t, tool);
      StandaloneIff(wf, wf.agents[agent].tools, tool);
      ToolNamesIff(t, tools, name);
    } else {
      var u :| u in wf.tasks && IsGuarded(wf, u, t) && d == NodeDef(u + "__cond__" + t, "conditional");
      name := ConditionNode(u, t);
    }
  }

  lemma RenderedNode(names: seq<Name>, d: NodeDef)
    ensures d in RenderNodes(names) <==> exists name :: name in names && d == RenderNode(name)
  {
    hide RenderNode;
    if d in RenderNodes(names) {
      var i :| 0 <= i < |names| && RenderNodes(names)[i] == d;
      assert names[i] in names;
    }
    if name :| name in names && d == RenderNode(name) {
      var i :| 0 <= i < |names| && names[i] == name;
      assert RenderNodes(names)[i] == d;
    }
  }

  /** The compiled nodes, with their IDs and types, are exactly these. */
  lemma CompiledNodesAre(wf: Workflow, taskIDs: seq<string>, execIDs: seq<string>, d: NodeDef)
    requires AgentsDefined(wf) && Enumerates(wf, taskIDs, execIDs) && AllTasks(wf, taskIDs) && DistinctIds(wf, CustomStrategy)
    ensures d in CompiledNodes(wf, CustomStrategy, taskIDs, execIDs) <==> exists t :: IsNode(wf, d, t)
  {
    var names := CompiledNames(wf, CustomStrategy, taskIDs, execIDs);
    assert ChainsDistinct(wf);
    hide Chain, CompiledNames, CompiledNodes, IsNode, RenderNode, RenderNodes, IsCompiled, ChainsDistinct, Enumerates;
    NodesAreNames(wf, CustomStrategy, taskIDs, execIDs);
    RenderedNode(names, d);
    if name :| name in names && d == RenderNode(name) {
      UniverseIsCompiled(wf, taskIDs, execIDs, name);
      NamedNode(wf, name);
    }
    if t :| IsNode(wf, d, t) {
      var name := NodeIsNamed(wf, d, t);
      UniverseIsCompiled(wf, taskIDs, execIDs, name);
    }
  }
}
