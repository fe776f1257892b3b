/** The custom strategy preserves the dependency relation between tasks. */
module CompilerLaws {
  import opened Sequences
  import opened Digraphs
  import opened AgentWorkflows
  import opened AgentCompiler

  /** v refers to u in an input template or its context. */
  ghost predicate RefersTo(wf: Workflow, v: string, u: string)
    requires v in wf.tasks
  {
    || (exists i :: 0 <= i < |wf.tasks[v].inputs| && u in wf.tasks[v].inputs[i].refs)
    || u in wf.tasks[v].context
  }

  /** v refers to u or declares a dependency on it. */
  ghost predicate DependsOn(wf: Workflow, v: string, u: string)
    requires v in wf.tasks
  {
    || RefersTo(wf, v, u)
    || (wf.execution.Some? && v in wf.execution.value && u in wf.execution.value[v].dependsOn)
  }

  /** The dependencies between defined tasks, dependency first. */
  ghost function TaskLinks(wf: Workflow): set<Edge<string>> {
    set u, v | u in wf.tasks && v in wf.tasks && DependsOn(wf, v, u) :: Edge(u, v)
  }

  ghost function WireLinks(wires: seq<Wire>): set<Edge<Name>> {
    set w | w in wires :: Edge(w.source, w.target)
  }

  /** Node-level links of the compiled custom workflow, by name. */
  ghost function NameLinks(wf: Workflow, taskIDs: seq<string>, execIDs: seq<string>): set<Edge<Name>>
    requires AgentsDefined(wf) && AllTasks(wf, taskIDs)
  {
    WireLinks(CompiledWires(wf, CustomStrategy, taskIDs, execIDs))
  }

  // ----- what a link can be

  /** Consecutive nodes of one task. */
  ghost predicate IsChainLink(wf: Workflow, a: Name, b: Name)
    requires AgentsDefined(wf)
  {
    exists t, i, j :: t in wf.tasks && 0 <= i < j < |Chain(wf, t)| && j == i + 1 && a == Chain(wf, t)[i] && b == Chain(wf, t)[j]
  }

  /** From a task to the start, or to the condition node, of a task that depends on it. */
  ghost predicate IsHandover(wf: Workflow, links: set<Edge<string>>, a: Name, b: Name)
    requires AgentsDefined(wf)
  {
    exists u, v :: u in wf.tasks && v in wf.tasks && Edge(u, v) in links && a == OutputOf(wf, u)
                   && (b == StartOf(wf, v) || (b == ConditionNode(u, v) && IsGuarded(wf, u, v)))
  }

  ghost predicate IsConditionExit(wf: Workflow, a: Name, b: Name)
    requires AgentsDefined(wf)
  {
    exists u, v :: u in wf.tasks && v in wf.tasks && a == ConditionNode(u, v) && IsGuarded(wf, u, v) && b == StartOf(wf, v)
  }

  ghost predicate Explained(wf: Workflow, links: set<Edge<string>>, w: Wire)
    requires AgentsDefined(wf)
  {
    || IsChainLink(wf, w.source, w.target)
    || IsHandover(wf, links, w.source, w.target)
    || IsConditionExit(wf, w.source, w.target)
  }

  ghost predicate AllExplained(wf: Workflow, links: set<Edge<string>>, wires: seq<Wire>)
    requires AgentsDefined(wf)
  {
    forall i :: 0 <= i < |wires| ==> Explained(wf, links, wires[i])
  }

  lemma AllExplainedAppend(wf: Workflow, links: set<Edge<string>>, xs: seq<Wire>, ys: seq<Wire>)
    requires AgentsDefined(wf) && AllExplained(wf, links, xs) && AllExplained(wf, links, ys)
    ensures AllExplained(wf, links, xs + ys)
  {
    hide Explained;
  }

  lemma {:induction false} ChainExplained(wf: Workflow, links: set<Edge<string>>, t: string, n: nat)
    requires AgentsDefined(wf) && t in wf.tasks && n <= |Chain(wf, t)|
    ensures AllExplained(wf, links, ChainWires(Chain(wf, t)[..n]))
  {
    hide Chain, LinkHandle, OutputHandle;
    if n >= 2 {
      var names := Chain(wf, t);
      ChainExplained(wf, links, t, n - 1);
      assert names[..n][..n - 1] == names[..n - 1];
      var w := Wire(names[n - 2], OutputHandle(), names[n - 1], LinkHandle(names[n - 1]));
      assert IsChainLink(wf, w.source, w.target);
      assert Explained(wf, links, w);
    }
  }

  lemma {:induction false} TasksExplained(wf: Workflow, links: set<Edge<string>>, ids: seq<string>)
    requires AgentsDefined(wf) && AllTasks(wf, ids)
    ensures AllExplained(wf, links, TaskWires(wf, ids))
  {
    if ids != [] {
      var t := ids[|ids| - 1];
      TasksExplained(wf, links, ids[..|ids| - 1]);
      ChainExplained(wf, links, t, |Chain(wf, t)|);
      assert Chain(wf, t)[..|Chain(wf, t)|] == Chain(wf, t);
      hide Chain, Explained, AllExplained;
      AllExplainedAppend(wf, links, TaskWires(wf, ids[..|ids| - 1]), ChainWires(Chain(wf, t)));
    }
  }

  lemma {:induction false} RefsExplained(wf: Workflow, links: set<Edge<string>>, t: string, refs: seq<string>, handle: string)
    requires AgentsDefined(wf) && t in wf.tasks
    requires forall u :: u in refs && u in wf.tasks ==> Edge(u, t) in links
    ensures AllExplained(wf, links, RefWires(wf, t, refs, handle))
  {
    hide Chain, OutputHandle;
    if refs != [] {
      var u := refs[|refs| - 1];
      assert u in refs;
      assert forall x :: x in refs[..|refs| - 1] ==> x in refs;
      RefsExplained(wf, links, t, refs[..|refs| - 1], handle);
      if u in wf.tasks {
        assert IsHandover(wf, links, OutputOf(wf, u), StartOf(wf, t));
      }
    }
  }

  lemma {:induction false} InputsExplained(wf: Workflow, links: set<Edge<string>>, t: string, inputs: seq<Input>)
    requires AgentsDefined(wf) && t in wf.tasks
    requires forall i, u :: 0 <= i < |inputs| && u in inputs[i].refs && u in wf.tasks ==> Edge(u, t) in links
    ensures AllExplained(wf, links, InputWires(wf, t, inputs))
  {
    hide Explained, Chain, RefWires;
    if inputs != [] {
      var last := |inputs| - 1;
      InputsExplained(wf, links, t, inputs[..last]);
      RefsExplained(wf, links, t, inputs[last].refs, inputs[last].param);
      hide AllExplained;
      AllExplainedAppend(wf, links, InputWires(wf, t, inputs[..last]), RefWires(wf, t, inputs[last].refs, inputs[last].param));
    }
  }

  lemma {:induction false} ReferencesExplained(wf: Workflow, ids: seq<string>)
    requires AgentsDefined(wf) && AllTasks(wf, ids)
    ensures AllExplained(wf, TaskLinks(wf), ReferenceWires(wf, ids))
  {
    hide Explained, Chain, RefWires, InputWires, ContextHandle;
    if ids != [] {
      var t := ids[|ids| - 1];
      var front := ids[..|ids| - 1];
      ReferencesExplained(wf, front);
      InputsExplained(wf, TaskLinks(wf), t, wf.tasks[t].inputs);
      RefsExplained(wf, TaskLinks(wf), t, wf.tasks[t].context, ContextHandle());
      var inputs, context := InputWires(wf, t, wf.tasks[t].inputs), RefWires(wf, t, wf.tasks[t].context, ContextHandle());
      hide AllExplained, TaskLinks;
      AllExplainedAppend(wf, TaskLinks(wf), inputs, context);
      AllExplainedAppend(wf, TaskLinks(wf), ReferenceWires(wf, front), inputs + context);
    }
  }

  lemma {:induction false} ConditionsExplained(wf: Workflow, links: set<Edge<string>>, t: string, deps: seq<string>)
    requires AgentsDefined(wf) && t in wf.tasks
    requires forall u :: u in deps && u in wf.tasks ==> Edge(u, t) in links && IsGuarded(wf, u, t)
    ensures AllExplained(wf, links, ConditionalWires(wf, t, deps))
  {
    hide Chain, OutputHandle, InputHandle, Render, IsGuarded;
    if deps != [] {
      var u := deps[|deps| - 1];
      assert u in deps;
      assert forall x :: x in deps[..|deps| - 1] ==> x in deps;
      ConditionsExplained(wf, links, t, deps[..|deps| - 1]);
      if u in wf.tasks {
        assert IsHandover(wf, links, OutputOf(wf, u), ConditionNode(u, t));
        assert IsConditionExit(wf, ConditionNode(u, t), StartOf(wf, t));
      }
    }
  }

  lemma {:induction false} DependenciesExplained(wf: Workflow, ids: seq<string>)
    requires AgentsDefined(wf) && wf.execution.Some?
    requires forall i :: 0 <= i < |ids| ==> ids[i] in wf.execution.value
    ensures AllExplained(wf, TaskLinks(wf), CustomWires(wf, wf.execution.value, ids))
  {
    if ids != [] {
      hide Explained, Chain, RefWires, ConditionalWires, InputHandle;
      var t := ids[|ids| - 1];
      var front := ids[..|ids| - 1];
      DependenciesExplained(wf, front);
      if t in wf.tasks {
        var d := wf.execution.value[t];
        if d.condition != "" {
          ConditionsExplained(wf, TaskLinks(wf), t, d.dependsOn);
        } else {
          RefsExplained(wf, TaskLinks(wf), t, d.dependsOn, InputHandle());
        }
        hide AllExplained, TaskLinks;
        AllExplainedAppend(wf, TaskLinks(wf), CustomWires(wf, wf.execution.value, front), DependencyWires(wf, t, d));
      }
    }
  }

  /** Every compiled link is within a task, hands over a dependency, or leaves a condition node. */
  lemma LinkExplained(wf: Workflow, taskIDs: seq<string>, execIDs: seq<string>, a: Name, b: Name)
    requires AgentsDefined(wf) && Enumerates(wf, taskIDs, execIDs) && AllTasks(wf, taskIDs)
    requires Edge(a, b) in NameLinks(wf, taskIDs, execIDs)
    ensures IsChainLink(wf, a, b) || IsHandover(wf, TaskLinks(wf), a, b) || IsConditionExit(wf, a, b)
  {
    hide Chain, TaskWires, ReferenceWires, CustomWires, IsChainLink, IsHandover, IsConditionExit, TaskLinks;
    var wires := CompiledWires(wf, CustomStrategy, taskIDs, execIDs);
    var links := TaskLinks(wf);
    TasksExplained(wf, links, taskIDs);
    ReferencesExplained(wf, taskIDs);
    AllExplainedAppend(wf, links, TaskWires(wf, taskIDs), ReferenceWires(wf, taskIDs));
    if wf.execution.Some? {
      assert forall i :: 0 <= i < |execIDs| ==> execIDs[i] in Elements(execIDs);
      DependenciesExplained(wf, execIDs);
    }
    AllExplainedAppend(wf, links, TaskWires(wf, taskIDs) + ReferenceWires(wf, taskIDs),
                       StrategyWires(wf, CustomStrategy, execIDs));
    var w :| w in wires && Edge(w.source, w.target) == Edge(a, b);
    var i :| 0 <= i < |wires| && wires[i] == w;
    assert Explained(wf, links, wires[i]);
  }

  // ----- projecting paths to tasks

  lemma ChainMembers(wf: Workflow, t: string, i: nat)
    requires AgentsDefined(wf) && t in wf.tasks && i < |Chain(wf, t)|
    ensures !Chain(wf, t)[i].ConditionNode? && Chain(wf, t)[i].task == t
    ensures InUniverse(wf, Chain(wf, t)[i])
  {
  }

  ghost function IndexIn(names: seq<Name>, name: Name): (i: nat)
    requires name in names
    ensures i < |names| && names[i] == name
  {
    if names[0] == name then 0 else 1 + IndexIn(names[1..], name)
  }

  /** Where a node stands within its task; a condition node comes before the task it guards. */
  ghost function Position(wf: Workflow, name: Name): int
    requires AgentsDefined(wf) && InUniverse(wf, name)
  {
    if name.ConditionNode? then -1 else IndexIn(Chain(wf, name.task), name)
  }

  lemma PositionInChain(wf: Workflow, t: string, i: nat)
    requires AgentsDefined(wf) && t in wf.tasks && i < |Chain(wf, t)| && NoDup(Chain(wf, t))
    ensures InUniverse(wf, Chain(wf, t)[i]) && Position(wf, Chain(wf, t)[i]) == i
  {
    ChainMembers(wf, t, i);
    hide Chain;
  }

  ghost predicate ChainsDistinct(wf: Workflow)
    requires AgentsDefined(wf)
  {
    forall t :: t in wf.tasks ==> NoDup(Chain(wf, t))
  }

  /** b comes after a in the same task, or its task depends, directly or not, on a's. */
  ghost predicate Leads(wf: Workflow, a: Name, b: Name)
    requires AgentsDefined(wf)
  {
    || (InUniverse(wf, a) && InUniverse(wf, b) && a.task == b.task && Position(wf, a) < Position(wf, b))
    || ReachesPlus(TaskLinks(wf), a.task, b.task)
  }

  lemma ChainLinkLeads(wf: Workflow, a: Name, b: Name)
    requires AgentsDefined(wf) && ChainsDistinct(wf) && IsChainLink(wf, a, b)
    ensures Leads(wf, a, b)
  {
    var t, i, j :| t in wf.tasks && 0 <= i < j < |Chain(wf, t)| && j == i + 1 && a == Chain(wf, t)[i] && b == Chain(wf, t)[j];
    PositionInChain(wf, t, i);
    PositionInChain(wf, t, j);
    ChainMembers(wf, t, i);
    ChainMembers(wf, t, j);
    hide Chain, InUniverse;
  }

  lemma HandoverLeads(wf: Workflow, a: Name, b: Name)
    requires AgentsDefined(wf) && IsHandover(wf, TaskLinks(wf), a, b)
    ensures Leads(wf, a, b)
  {
    var u, v :| u in wf.tasks && v in wf.tasks && Edge(u, v) in TaskLinks(wf) && a == OutputOf(wf, u)
                && (b == StartOf(wf, v) || (b == ConditionNode(u, v) && IsGuarded(wf, u, v)));
    ChainMembers(wf, u, |Chain(wf, u)| - 1);
    ChainMembers(wf, v, 0);
    ReachesEdge(TaskLinks(wf), u, v);
    hide Chain, TaskLinks;
  }

  lemma ConditionExitLeads(wf: Workflow, a: Name, b: Name)
    requires AgentsDefined(wf) && ChainsDistinct(wf) && IsConditionExit(wf, a, b)
    ensures Leads(wf, a, b)
  {
    var u, v :| u in wf.tasks && v in wf.tasks && a == ConditionNode(u, v) && IsGuarded(wf, u, v) && b == StartOf(wf, v);
    PositionInChain(wf, v, 0);
    ChainMembers(wf, v, 0);
    hide Chain;
  }

  lemma LinkLeads(wf: Workflow, taskIDs: seq<string>, execIDs: seq<string>, a: Name, b: Name)
    requires AgentsDefined(wf) && Enumerates(wf, taskIDs, execIDs) && AllTasks(wf, taskIDs) && ChainsDistinct(wf)
    requires Edge(a, b) in NameLinks(wf, taskIDs, execIDs)
    ensures Leads(wf, a, b)
  {
    hide NameLinks, TaskLinks, Chain, Leads, IsChainLink, IsHandover, IsConditionExit;
    LinkExplained(wf, taskIDs, execIDs, a, b);
    if IsChainLink(wf, a, b) {
      ChainLinkLeads(wf, a, b);
    } else if IsHandover(wf, TaskLinks(wf), a, b) {
      HandoverLeads(wf, a, b);
    } else {
      ConditionExitLeads(wf, a, b);
    }
  }

  lemma LeadsTransitive(wf: Workflow, a: Name, b: Name, c: Name)
    requires AgentsDefined(wf) && Leads(wf, a, b) && Leads(wf, b, c)
    ensures Leads(wf, a, c)
  {
    var links := TaskLinks(wf);
    hide InUniverse, TaskLinks;
    if ReachesPlus(links, a.task, b.task) && ReachesPlus(links, b.task, c.task) {
      PlusIsReaches(links, a.task, b.task);
      PlusIsReaches(links, b.task, c.task);
      ReachesTransitive(links, a.task, b.task, c.task);
    }
  }

  /** A path of compiled links moves on within one task or follows dependencies from task to task. */
  lemma {:induction false} PathLeads(wf: Workflow, taskIDs: seq<string>, execIDs: seq<string>, p: seq<Name>)
    requires AgentsDefined(wf) && Enumerates(wf, taskIDs, execIDs) && AllTasks(wf, taskIDs) && ChainsDistinct(wf)
    requires IsPath(NameLinks(wf, taskIDs, execIDs), p) && |p| >= 2
    ensures Leads(wf, p[0], p[|p| - 1])
    decreases |p|
  {
    PathTail(NameLinks(wf, taskIDs, execIDs), p);
    hide NameLinks, Leads;
    LinkLeads(wf, taskIDs, execIDs, p[0], p[1]);
    if |p| >= 3 {
      PathLeads(wf, taskIDs, execIDs, p[1..]);
      LeadsTransitive(wf, p[0], p[1], p[|p| - 1]);
    }
  }

  // ----- every dependency has a path

  lemma {:induction false} ChainWireIn(names: seq<Name>, i: nat)
    requires i + 1 < |names|
    ensures Edge(names[i], names[i + 1]) in WireLinks(ChainWires(names))
  {
    hide LinkHandle, OutputHandle;
    var n := |names|;
    var front := ChainWires(names[..n - 1]);
    var w := Wire(names[n - 2], OutputHandle(), names[n - 1], LinkHandle(names[n - 1]));
    LinksGrow(front, [w]);
    OneWire(w);
    hide WireLinks;
    if i + 2 < n {
      ChainWireIn(names[..n - 1], i);
    }
  }

  lemma OneWire(w: Wire)
    ensures WireLinks([w]) == {Edge(w.source, w.target)}
  {
    assert w in [w];
  }

  lemma LinksGrow(xs: seq<Wire>, ys: seq<Wire>)
    ensures WireLinks(xs + ys) == WireLinks(xs) + WireLinks(ys)
  {
    forall e
      ensures e in WireLinks(xs + ys) <==> e in WireLinks(xs) || e in WireLinks(ys)
    {
      if e in WireLinks(xs) {
        var w :| w in xs && Edge(w.source, w.target) == e;
        assert w in xs + ys;
      }
      if e in WireLinks(ys) {
        var w :| w in ys && Edge(w.source, w.target) == e;
        assert w in xs + ys;
      }
    }
  }

  lemma {:induction false} TaskWireIn(wf: Workflow, ids: seq<string>, t: string, i: nat)
    requires AgentsDefined(wf) && AllTasks(wf, ids) && t in ids && t in wf.tasks && i + 1 < |Chain(wf, t)|
    ensures Edge(Chain(wf, t)[i], Chain(wf, t)[i + 1]) in WireLinks(TaskWires(wf, ids))
  {
    hide Chain, ChainWires;
    var front, last := ids[..|ids| - 1], ids[|ids| - 1];
    LinksGrow(TaskWires(wf, front), ChainWires(Chain(wf, last)));
    if t == last {
      ChainWireIn(Chain(wf, t), i);
    } else {
      assert ids == front + [last];
      TaskWireIn(wf, front, t, i);
    }
  }

  lemma {:induction false} RefWireIn(wf: Workflow, t: string, refs: seq<string>, handle: string, u: string)
    requires AgentsDefined(wf) && t in wf.tasks && u in refs && u in wf.tasks
    ensures Edge(OutputOf(wf, u), StartOf(wf, t)) in WireLinks(RefWires(wf, t, refs, handle))
  {
    hide Chain, OutputHandle, StartOf, OutputOf;
    var front, last := refs[..|refs| - 1], refs[|refs| - 1];
    assert refs == front + [last];
    var added := if last in wf.tasks then [Wire(OutputOf(wf, last), OutputHandle(), StartOf(wf, t), handle)] else [];
    LinksGrow(RefWires(wf, t, front, handle), added);
    if u == last {
      assert added[0] in added;
    } else {
      RefWireIn(wf, t, front, handle, u);
    }
  }

  lemma {:induction false} InputWireIn(wf: Workflow, t: string, inputs: seq<Input>, i: nat, u: string)
    requires AgentsDefined(wf) && t in wf.tasks && i < |inputs| && u in inputs[i].refs && u in wf.tasks
    ensures Edge(OutputOf(wf, u), StartOf(wf, t)) in WireLinks(InputWires(wf, t, inputs))
    decreases |inputs|
  {
    hide Chain, StartOf, OutputOf, RefWires;
    var last := |inputs| - 1;
    LinksGrow(InputWires(wf, t, inputs[..last]), RefWires(wf, t, inputs[last].refs, inputs[last].param));
    if i == last {
      RefWireIn(wf, t, inputs[last].refs, inputs[last].param, u);
    } else {
      InputWireIn(wf, t, inputs[..last], i, u);
    }
  }

  lemma {:induction false} ReferenceWireIn(wf: Workflow, ids: seq<string>, t: string, u: string)
    requires AgentsDefined(wf) && AllTasks(wf, ids) && t in ids && t in wf.tasks && u in wf.tasks
    requires RefersTo(wf, t, u)
    ensures Edge(OutputOf(wf, u), StartOf(wf, t)) in WireLinks(ReferenceWires(wf, ids))
  {
    hide Chain, StartOf, OutputOf, RefWires, InputWires, ContextHandle;
    var front, last := ids[..|ids| - 1], ids[|ids| - 1];
    assert ids == front + [last];
    var inputs, context := InputWires(wf, last, wf.tasks[last].inputs), RefWires(wf, last, wf.tasks[last].context, ContextHandle());
    LinksGrow(inputs, context);
    LinksGrow(ReferenceWires(wf, front), inputs + context);
    if t != last {
      ReferenceWireIn(wf, front, t, u);
    } else if u in wf.tasks[t].context {
      RefWireIn(wf, t, wf.tasks[t].context, ContextHandle(), u);
    } else {
      var i :| 0 <= i < |wf.tasks[t].inputs| && u in wf.tasks[t].inputs[i].refs;
      InputWireIn(wf, t, wf.tasks[t].inputs, i, u);
    }
  }

  /** A dependency is handed over directly or through its condition node. */
  ghost predicate Connected(wf: Workflow, links: set<Edge<Name>>, u: string, t: string)
    requires AgentsDefined(wf) && u in wf.tasks && t in wf.tasks
  {
    || Edge(OutputOf(wf, u), StartOf(wf, t)) in links
    || (Edge(OutputOf(wf, u), ConditionNode(u, t)) in links && Edge(ConditionNode(u, t), StartOf(wf, t)) in links)
  }

  lemma {:induction false} ConditionWireIn(wf: Workflow, t: string, deps: seq<string>, u: string)
    requires AgentsDefined(wf) && t in wf.tasks && u in deps && u in wf.tasks
    ensures Connected(wf, WireLinks(ConditionalWires(wf, t, deps)), u, t)
  {
    hide Chain, StartOf, OutputOf, OutputHandle, InputHandle, Render;
    var front, last := deps[..|deps| - 1], deps[|deps| - 1];
    assert deps == front + [last];
    var added := if last in wf.tasks then ConditionWires(wf, last, t) else [];
    LinksGrow(ConditionalWires(wf, t, front), added);
    if u == last {
      assert added[0] in added && added[1] in added;
    } else {
      ConditionWireIn(wf, t, front, u);
    }
  }

  lemma {:induction false} CustomWireIn(wf: Workflow, execution: map<string, Dependencies>, ids: seq<string>, t: string, u: string)
    requires AgentsDefined(wf) && (forall i :: 0 <= i < |ids| ==> ids[i] in execution)
    requires t in ids && t in execution && t in wf.tasks && u in wf.tasks && u in execution[t].dependsOn
    ensures Connected(wf, WireLinks(CustomWires(wf, execution, ids)), u, t)
  {
    hide Chain, StartOf, OutputOf, RefWires, ConditionalWires, InputHandle;
    var front, last := ids[..|ids| - 1], ids[|ids| - 1];
    assert ids == front + [last];
    var added := if last in wf.tasks then DependencyWires(wf, last, execution[last]) else [];
    LinksGrow(CustomWires(wf, execution, front), added);
    if t != last {
      CustomWireIn(wf, execution, front, t, u);
    } else if execution[t].condition != "" {
      ConditionWireIn(wf, t, execution[t].dependsOn, u);
    } else {
      RefWireIn(wf, t, execution[t].dependsOn, InputHandle(), u);
    }
  }

  lemma CompiledLinks(wf: Workflow, taskIDs: seq<string>, execIDs: seq<string>)
    requires AgentsDefined(wf) && AllTasks(wf, taskIDs)
    ensures NameLinks(wf, taskIDs, execIDs)
         == WireLinks(TaskWires(wf, taskIDs)) + WireLinks(ReferenceWires(wf, taskIDs))
            + WireLinks(StrategyWires(wf, CustomStrategy, execIDs))
  {
    hide TaskWires, ReferenceWires, CustomWires, StrategyWires;
    LinksGrow(TaskWires(wf, taskIDs), ReferenceWires(wf, taskIDs));
    LinksGrow(TaskWires(wf, taskIDs) + ReferenceWires(wf, taskIDs), StrategyWires(wf, CustomStrategy, execIDs));
  }

  lemma DependencyConnected(wf: Workflow, taskIDs: seq<string>, execIDs: seq<string>, u: string, t: string)
    requires AgentsDefined(wf) && Enumerates(wf, taskIDs, execIDs) && AllTasks(wf, taskIDs)
    requires Edge(u, t) in TaskLinks(wf)
    ensures u in wf.tasks && t in wf.tasks && Connected(wf, NameLinks(wf, taskIDs, execIDs), u, t)
  {
    hide Chain, StartOf, OutputOf, TaskWires, ReferenceWires, CustomWires;
    CompiledLinks(wf, taskIDs, execIDs);
    assert t in Elements(taskIDs);
    if RefersTo(wf, t, u) {
      ReferenceWireIn(wf, taskIDs, t, u);
    } else {
      assert t in Elements(execIDs);
      assert forall i :: 0 <= i < |execIDs| ==> execIDs[i] in Elements(execIDs);
      CustomWireIn(wf, wf.execution.value, execIDs, t, u);
    }
  }

  /** Within a task, later nodes are reachable from earlier ones. */
  lemma {:induction false} ChainReaches(wf: Workflow, taskIDs: seq<string>, execIDs: seq<string>, t: string, i: nat, j: nat)
    requires AgentsDefined(wf) && Enumerates(wf, taskIDs, execIDs) && AllTasks(wf, taskIDs)
    requires t in wf.tasks && i <= j < |Chain(wf, t)|
    ensures Reaches(NameLinks(wf, taskIDs, execIDs), Chain(wf, t)[i], Chain(wf, t)[j])
    decreases j
  {
    var links := NameLinks(wf, taskIDs, execIDs);
    hide Chain;
    if i == j {
      ReachesSelf(links, Chain(wf, t)[i]);
    } else {
      ChainReaches(wf, taskIDs, execIDs, t, i, j - 1);
      CompiledLinks(wf, taskIDs, execIDs);
      assert t in Elements(taskIDs);
      TaskWireIn(wf, taskIDs, t, j - 1);
      ReachesEdge(links, Chain(wf, t)[j - 1], Chain(wf, t)[j]);
      ReachesTransitive(links, Chain(wf, t)[i], Chain(wf, t)[j - 1], Chain(wf, t)[j]);
    }
  }

  lemma HandoverReaches(wf: Workflow, taskIDs: seq<string>, execIDs: seq<string>, u: string, t: string)
    requires AgentsDefined(wf) && Enumerates(wf, taskIDs, execIDs) && AllTasks(wf, taskIDs)
    requires Edge(u, t) in TaskLinks(wf)
    ensures u in wf.tasks && t in wf.tasks
    ensures ReachesPlus(NameLinks(wf, taskIDs, execIDs), OutputOf(wf, u), OutputOf(wf, t))
    ensures ReachesPlus(NameLinks(wf, taskIDs, execIDs), OutputOf(wf, u), StartOf(wf, t))
  {
    var links := NameLinks(wf, taskIDs, execIDs);
    DependencyConnected(wf, taskIDs, execIDs, u, t);
    ChainReaches(wf, taskIDs, execIDs, t, 0, |Chain(wf, t)| - 1);
    hide Chain, NameLinks, TaskLinks;
    var a, c, s := OutputOf(wf, u), ConditionNode(u, t), StartOf(wf, t);
    if Edge(a, s) in links {
      ReachesEdge(links, a, s);
    } else {
      ReachesEdge(links, a, c);
      ReachesEdge(links, c, s);
      ReachesTransitive(links, a, c, s);
    }
    PlusIsReaches(links, a, s);
    ReachesTransitive(links, a, s, OutputOf(wf, t));
  }

  lemma {:induction false} DependencyPathReaches(wf: Workflow, taskIDs: seq<string>, execIDs: seq<string>, p: seq<string>)
    requires AgentsDefined(wf) && Enumerates(wf, taskIDs, execIDs) && AllTasks(wf, taskIDs)
    requires IsPath(TaskLinks(wf), p) && |p| >= 2
    ensures p[0] in wf.tasks && p[|p| - 1] in wf.tasks
    ensures ReachesPlus(NameLinks(wf, taskIDs, execIDs), OutputOf(wf, p[0]), OutputOf(wf, p[|p| - 1]))
    decreases |p|
  {
    var links := NameLinks(wf, taskIDs, execIDs);
    PathTail(TaskLinks(wf), p);
    HandoverReaches(wf, taskIDs, execIDs, p[0], p[1]);
    hide Chain, NameLinks, TaskLinks, OutputOf, StartOf;
    if |p| >= 3 {
      DependencyPathReaches(wf, taskIDs, execIDs, p[1..]);
      PlusIsReaches(links, OutputOf(wf, p[0]), OutputOf(wf, p[1]));
      PlusIsReaches(links, OutputOf(wf, p[1]), OutputOf(wf, p[|p| - 1]));
      ReachesTransitive(links, OutputOf(wf, p[0]), OutputOf(wf, p[1]), OutputOf(wf, p[|p| - 1]));
    }
  }

  // ----- the main results

  /** Some node of u leads to some node of v. */
  ghost predicate TaskReaches(wf: Workflow, links: set<Edge<Name>>, u: string, v: string)
    requires AgentsDefined(wf) && u in wf.tasks && v in wf.tasks
  {
    exists a, b :: a in Chain(wf, u) && b in Chain(wf, v) && Reaches(links, a, b)
  }

  /** For different tasks, nodes lead to nodes exactly along transitive dependencies. */
  lemma CompilationPreservesDependencies(wf: Workflow, taskIDs: seq<string>, execIDs: seq<string>, u: string, v: string)
    requires AgentsDefined(wf) && Enumerates(wf, taskIDs, execIDs) && AllTasks(wf, taskIDs) && ChainsDistinct(wf)
    requires u in wf.tasks && v in wf.tasks && u != v
    ensures TaskReaches(wf, NameLinks(wf, taskIDs, execIDs), u, v) <==> ReachesPlus(TaskLinks(wf), u, v)
  {
    var links := NameLinks(wf, taskIDs, execIDs);
    if TaskReaches(wf, links, u, v) {
      var a, b :| a in Chain(wf, u) && b in Chain(wf, v) && Reaches(links, a, b);
      var i :| 0 <= i < |Chain(wf, u)| && Chain(wf, u)[i] == a;
      var j :| 0 <= j < |Chain(wf, v)| && Chain(wf, v)[j] == b;
      ChainMembers(wf, u, i);
      ChainMembers(wf, v, j);
      var p :| PathFromTo(links, p, a, b);
      hide Chain, NameLinks, TaskLinks;
      PathLeads(wf, taskIDs, execIDs, p);
    }
    if ReachesPlus(TaskLinks(wf), u, v) {
      var p :| PathFromTo(TaskLinks(wf), p, u, v) && |p| >= 2;
      DependencyPathReaches(wf, taskIDs, execIDs, p);
      PlusIsReaches(links, OutputOf(wf, u), OutputOf(wf, v));
      hide Chain, NameLinks, TaskLinks;
      assert OutputOf(wf, u) in Chain(wf, u) && OutputOf(wf, v) in Chain(wf, v);
    }
  }

  /** The compiled nodes have a cycle exactly when the dependencies do. */
  lemma CompilationPreservesCycles(wf: Workflow, taskIDs: seq<string>, execIDs: seq<string>)
    requires AgentsDefined(wf) && Enumerates(wf, taskIDs, execIDs) && AllTasks(wf, taskIDs) && ChainsDistinct(wf)
    ensures Cyclic(NameLinks(wf, taskIDs, execIDs)) <==> Cyclic(TaskLinks(wf))
  {
    var links := NameLinks(wf, taskIDs, execIDs);
    if Cyclic(links) {
      var a :| ReachesPlus(links, a, a);
      var p :| PathFromTo(links, p, a, a) && |p| >= 2;
      hide Chain, NameLinks, TaskLinks;
      PathLeads(wf, taskIDs, execIDs, p);
    }
    if Cyclic(TaskLinks(wf)) {
      var u :| ReachesPlus(TaskLinks(wf), u, u);
      var p :| PathFromTo(TaskLinks(wf), p, u, u) && |p| >= 2;
      DependencyPathReaches(wf, taskIDs, execIDs, p);
    }
  }
}
