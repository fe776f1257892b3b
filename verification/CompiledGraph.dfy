/** The compiled definition itself: distinct node IDs, closed edges, and the cycles of the dependency relation. */
module CompiledGraphs {
  import opened Sequences
  import opened Digraphs
  import opened Definitions
  import opened AgentWorkflows
  import opened AgentCompiler
  import opened CompilerLaws

  /** The definition lists the rendered names and, in some order, the rendered wires. */
  ghost predicate Renders(gd: GraphDefinition, names: seq<Name>, wires: seq<Wire>) {
    && Ids(gd.nodes) == RenderAll(names)
    && multiset(gd.edges) == multiset(RenderWires(wires))
  }

  ghost function RenderLinks(E: set<Edge<Name>>): set<Edge<string>> {
    set e | e in E :: Edge(Render(e.source), Render(e.target))
  }

  ghost predicate LinksCompiled(wf: Workflow, strategy: Strategy, E: set<Edge<Name>>)
    requires AgentsDefined(wf)
  {
    forall e :: e in E ==> IsCompiled(wf, strategy, e.source) && IsCompiled(wf, strategy, e.target)
  }

  lemma EndsOf(edges: seq<EdgeDef>, e: Edge<string>)
    ensures e in Ends(edges) <==> exists d :: d in edges && e == Edge(d.source, d.target)
  {
    if e in Ends(edges) {
      var i :| 0 <= i < |edges| && Ends(edges)[i] == e;
      assert edges[i] in edges;
    }
    if d :| d in edges && e == Edge(d.source, d.target) {
      var i :| 0 <= i < |edges| && edges[i] == d;
      assert Ends(edges)[i] == e;
    }
  }

  lemma RenderedWire(wires: seq<Wire>, d: EdgeDef)
    ensures d in RenderWires(wires) <==> exists w :: w in wires && d == RenderWire(w)
  {
    hide RenderWire;
    if d in RenderWires(wires) {
      var i :| 0 <= i < |wires| && RenderWires(wires)[i] == d;
      assert wires[i] in wires;
    }
    if w :| w in wires && d == RenderWire(w) {
      var i :| 0 <= i < |wires| && wires[i] == w;
      assert RenderWires(wires)[i] == d;
    }
  }

  /** Sorting and rendering keep the links. */
  lemma LinksRendered(gd: GraphDefinition, names: seq<Name>, wires: seq<Wire>)
    requires Renders(gd, names, wires)
    ensures Links(gd) == RenderLinks(WireLinks(wires))
  {
    hide Render, RenderWires, Ends;
    forall e
      ensures e in Links(gd) <==> e in RenderLinks(WireLinks(wires))
    {
      EndsOf(gd.edges, e);
      if e in Links(gd) {
        var d :| d in gd.edges && e == Edge(d.source, d.target);
        assert d in multiset(RenderWires(wires));
        RenderedWire(wires, d);
        var w :| w in wires && d == RenderWire(w);
        assert Edge(w.source, w.target) in WireLinks(wires);
      }
      if e in RenderLinks(WireLinks(wires)) {
        var l :| l in WireLinks(wires) && e == Edge(Render(l.source), Render(l.target));
        var w :| w in wires && Edge(w.source, w.target) == l;
        RenderedWire(wires, RenderWire(w));
        assert RenderWire(w) in multiset(gd.edges);
      }
    }
  }

  lemma PathRenders(E: set<Edge<Name>>, p: seq<Name>)
    requires IsPath(E, p)
    ensures IsPath(RenderLinks(E), RenderAll(p))
  {
    hide Render;
    forall i, j | 0 <= i < j < |p| && j == i + 1
      ensures Edge(RenderAll(p)[i], RenderAll(p)[j]) in RenderLinks(E)
    {
      assert Edge(p[i], p[j]) in E;
    }
  }

  /** A path of IDs that starts at the ID of a name comes from a path of names. */
  lemma {:induction false} PathUnrenders(wf: Workflow, strategy: Strategy, E: set<Edge<Name>>, p: seq<string>, a: Name) returns (q: seq<Name>)
    requires AgentsDefined(wf) && DistinctIds(wf, strategy) && LinksCompiled(wf, strategy, E) && IsCompiled(wf, strategy, a)
    requires IsPath(RenderLinks(E), p) && p[0] == Render(a)
    ensures IsPath(E, q) && q[0] == a && |q| == |p|
    ensures IsCompiled(wf, strategy, q[|q| - 1]) && Render(q[|q| - 1]) == p[|p| - 1]
    decreases |p|
  {
    hide Render, IsCompiled;
    if |p| == 1 {
      q := [a];
    } else {
      PathTail(RenderLinks(E), p);
      var e :| e in E && Edge(p[0], p[1]) == Edge(Render(e.source), Render(e.target));
      assert e.source == a;
      var rest := PathUnrenders(wf, strategy, E, p[1..], e.target);
      hide IsPath, DistinctIds, RenderLinks;
      Prepend(E, a, rest);
      q := [a] + rest;
    }
  }

  lemma Prepend<N>(E: set<Edge<N>>, a: N, p: seq<N>)
    requires IsPath(E, p) && Edge(a, p[0]) in E
    ensures IsPath(E, [a] + p)
  {
    var q := [a] + p;
    forall i, j | 0 <= i < j < |q| && j == i + 1
      ensures Edge(q[i], q[j]) in E
    {
      if i > 0 {
        assert q[i] == p[i - 1] && q[j] == p[j - 1];
      }
    }
  }

  lemma RenderedReachability(wf: Workflow, strategy: Strategy, E: set<Edge<Name>>, a: Name, b: Name)
    requires AgentsDefined(wf) && DistinctIds(wf, strategy) && LinksCompiled(wf, strategy, E) && IsCompiled(wf, strategy, a) && IsCompiled(wf, strategy, b)
    ensures Reaches(RenderLinks(E), Render(a), Render(b)) <==> Reaches(E, a, b)
  {
    var ids := RenderLinks(E);
    hide Render, IsCompiled, LinksCompiled, RenderLinks;
    if Reaches(ids, Render(a), Render(b)) {
      var p :| PathFromTo(ids, p, Render(a), Render(b));
      var q := PathUnrenders(wf, strategy, E, p, a);
      assert PathFromTo(E, q, a, b);
    }
    if Reaches(E, a, b) {
      var p :| PathFromTo(E, p, a, b);
      PathRenders(E, p);
      assert PathFromTo(ids, RenderAll(p), Render(a), Render(b));
    }
  }

  lemma RenderedCycles(wf: Workflow, strategy: Strategy, E: set<Edge<Name>>)
    requires AgentsDefined(wf) && DistinctIds(wf, strategy) && LinksCompiled(wf, strategy, E)
    ensures Cyclic(RenderLinks(E)) <==> Cyclic(E)
  {
    var ids := RenderLinks(E);
    hide Render, IsCompiled;
    if Cyclic(ids) {
      var x :| ReachesPlus(ids, x, x);
      var p :| PathFromTo(ids, p, x, x) && |p| >= 2;
      PathTail(ids, p);
      var e :| e in E && Edge(p[0], p[1]) == Edge(Render(e.source), Render(e.target));
      var q := PathUnrenders(wf, strategy, E, p, e.source);
      hide LinksCompiled, RenderLinks;
      assert PathFromTo(E, q, e.source, e.source);
      assert ReachesPlus(E, e.source, e.source);
    }
    if Cyclic(E) {
      var a :| ReachesPlus(E, a, a);
      var p :| PathFromTo(E, p, a, a) && |p| >= 2;
      PathRenders(E, p);
      assert PathFromTo(ids, RenderAll(p), Render(a), Render(a));
      assert ReachesPlus(ids, Render(a), Render(a));
    }
  }

  // ----- node names

  lemma {:induction false} TaskNodesContain(wf: Workflow, ids: seq<string>, t: string, i: nat)
    requires AgentsDefined(wf) && AllTasks(wf, ids) && t in ids && t in wf.tasks && i < |Chain(wf, t)|
    ensures Chain(wf, t)[i] in TaskNodes(wf, ids)
  {
    hide Chain;
    var front, last := ids[..|ids| - 1], ids[|ids| - 1];
    if t != last {
      assert ids == front + [last];
      TaskNodesContain(wf, front, t, i);
    }
  }

  lemma {:induction false} TaskNodesBelong(wf: Workflow, ids: seq<string>, name: Name)
    requires AgentsDefined(wf) && AllTasks(wf, ids) && name in TaskNodes(wf, ids)
    ensures !name.ConditionNode? && name.task in ids
  {
    hide Chain;
    var front, last := ids[..|ids| - 1], ids[|ids| - 1];
    if name in TaskNodes(wf, front) {
      TaskNodesBelong(wf, front, name);
    } else {
      var i :| 0 <= i < |Chain(wf, last)| && Chain(wf, last)[i] == name;
      ChainMembers(wf, last, i);
    }
  }

  lemma {:induction false} TaskNodesDistinct(wf: Workflow, ids: seq<string>)
    requires AgentsDefined(wf) && ChainsDistinct(wf) && AllTasks(wf, ids) && NoDup(ids)
    ensures NoDup(TaskNodes(wf, ids))
  {
    hide Chain;
    if ids != [] {
      var front, last := ids[..|ids| - 1], ids[|ids| - 1];
      TaskNodesDistinct(wf, front);
      forall name | name in TaskNodes(wf, front)
        ensures name !in Chain(wf, last)
      {
        TaskNodesBelong(wf, front, name);
        if name in Chain(wf, last) {
          var i :| 0 <= i < |Chain(wf, last)| && Chain(wf, last)[i] == name;
          ChainMembers(wf, last, i);
        }
      }
      NoDupAppend(TaskNodes(wf, front), Chain(wf, last));
    }
  }

  /** Adding condition nodes keeps names distinct and within the universe, and drops none. */
  lemma {:induction false} ConditionsKeep(wf: Workflow, names: seq<Name>, t: string, deps: seq<string>)
    requires AgentsDefined(wf) && NoDup(names) && AllInUniverse(wf, names) && t in wf.tasks
    requires forall u :: u in deps && u in wf.tasks ==> IsGuarded(wf, u, t)
    ensures NoDup(WithConditions(wf, names, t, deps)) && AllInUniverse(wf, WithConditions(wf, names, t, deps))
    ensures Elements(names) <= Elements(WithConditions(wf, names, t, deps))
    ensures forall u :: u in deps && u in wf.tasks ==> ConditionNode(u, t) in WithConditions(wf, names, t, deps)
  {
    hide Chain, IsGuarded;
    if deps != [] {
      var front, last := deps[..|deps| - 1], deps[|deps| - 1];
      assert last in deps && forall u :: u in front ==> u in deps;
      ConditionsKeep(wf, names, t, front);
      assert deps == front + [last];
      hide NoDup, InUniverse;
      ExtendNoDup(WithConditions(wf, names, t, front), ConditionNode(last, t));
    }
  }

  lemma {:induction false} CustomNodesKeep(wf: Workflow, names: seq<Name>, ids: seq<string>)
    requires AgentsDefined(wf) && NoDup(names) && AllInUniverse(wf, names) && wf.execution.Some?
    requires forall i :: 0 <= i < |ids| ==> ids[i] in wf.execution.value
    ensures NoDup(CustomNodes(wf, wf.execution.value, names, ids))
    ensures AllInUniverse(wf, CustomNodes(wf, wf.execution.value, names, ids))
    ensures Elements(names) <= Elements(CustomNodes(wf, wf.execution.value, names, ids))
    ensures forall u, v :: v in ids && u in wf.tasks && v in wf.tasks && IsGuarded(wf, u, v) ==>
              ConditionNode(u, v) in CustomNodes(wf, wf.execution.value, names, ids)
  {
    hide AllInUniverse, NoDup;
    if ids != [] {
      var front, t := ids[..|ids| - 1], ids[|ids| - 1];
      CustomNodesKeep(wf, names, front);
      assert ids == front + [t];
      var before := CustomNodes(wf, wf.execution.value, names, front);
      if t in wf.tasks && wf.execution.value[t].condition != "" {
        ConditionsKeep(wf, before, t, wf.execution.value[t].dependsOn);
      }
      var after := CustomNodes(wf, wf.execution.value, names, ids);
      forall u, v | v in ids && u in wf.tasks && v in wf.tasks && IsGuarded(wf, u, v)
        ensures ConditionNode(u, v) in after
      {
        assert v in front ==> ConditionNode(u, v) in Elements(before);
      }
    }
  }

  lemma CustomNames(wf: Workflow, taskIDs: seq<string>, execIDs: seq<string>)
    requires AgentsDefined(wf) && Enumerates(wf, taskIDs, execIDs) && AllTasks(wf, taskIDs) && ChainsDistinct(wf)
    ensures NoDup(CompiledNames(wf, CustomStrategy, taskIDs, execIDs))
    ensures AllInUniverse(wf, CompiledNames(wf, CustomStrategy, taskIDs, execIDs))
    ensures Elements(TaskNodes(wf, taskIDs)) <= Elements(CompiledNames(wf, CustomStrategy, taskIDs, execIDs))
    ensures forall u, v :: u in wf.tasks && v in wf.tasks && IsGuarded(wf, u, v) ==>
              ConditionNode(u, v) in CompiledNames(wf, CustomStrategy, taskIDs, execIDs)
  {
    TaskNodesDistinct(wf, taskIDs);
    TaskNodesInUniverse(wf, taskIDs);
    hide NoDup, AllInUniverse, ChainsDistinct, TaskNodes, CustomNodes;
    if wf.execution.Some? {
      assert forall i :: 0 <= i < |execIDs| ==> execIDs[i] in Elements(execIDs);
      CustomNodesKeep(wf, TaskNodes(wf, taskIDs), execIDs);
      assert forall v :: v in wf.execution.value ==> v in Elements(execIDs);
    }
  }

  /** The names that must be told apart are exactly the compiled ones. */
  lemma UniverseIsCompiled(wf: Workflow, taskIDs: seq<string>, execIDs: seq<string>, name: Name)
    requires AgentsDefined(wf) && Enumerates(wf, taskIDs, execIDs) && AllTasks(wf, taskIDs) && ChainsDistinct(wf)
    ensures name in CompiledNames(wf, CustomStrategy, taskIDs, execIDs) <==> IsCompiled(wf, CustomStrategy, name)
  {
    var names := CompiledNames(wf, CustomStrategy, taskIDs, execIDs);
    CustomNames(wf, taskIDs, execIDs);
    if name in names {
      var i :| 0 <= i < |names| && names[i] == name;
      assert InUniverse(wf, names[i]);
    }
    if InUniverse(wf, name) && !name.ConditionNode? {
      var i :| 0 <= i < |Chain(wf, name.task)| && Chain(wf, name.task)[i] == name;
      assert name.task in Elements(taskIDs);
      TaskNodesContain(wf, taskIDs, name.task, i);
      hide TaskNodes, CompiledNames, Chain, NoDup;
      assert name in Elements(TaskNodes(wf, taskIDs));
    }
  }

  lemma LinkEndsNamed(wf: Workflow, taskIDs: seq<string>, execIDs: seq<string>, a: Name, b: Name)
    requires AgentsDefined(wf) && Enumerates(wf, taskIDs, execIDs) && AllTasks(wf, taskIDs) && ChainsDistinct(wf)
    requires Edge(a, b) in NameLinks(wf, taskIDs, execIDs)
    ensures a in CompiledNames(wf, CustomStrategy, taskIDs, execIDs)
    ensures b in CompiledNames(wf, CustomStrategy, taskIDs, execIDs)
  {
    hide NameLinks, TaskLinks, Chain, TaskNodes, CompiledNames, IsGuarded, ChainsDistinct;
    LinkExplained(wf, taskIDs, execIDs, a, b);
    CustomNames(wf, taskIDs, execIDs);
    forall t, i | t in wf.tasks && 0 <= i < |Chain(wf, t)|
      ensures Chain(wf, t)[i] in Elements(TaskNodes(wf, taskIDs))
    {
      assert t in Elements(taskIDs);
      TaskNodesContain(wf, taskIDs, t, i);
    }
  }

  lemma NamesDistinctIds(wf: Workflow, strategy: Strategy, names: seq<Name>)
    requires AgentsDefined(wf) && DistinctIds(wf, strategy) && NoDup(names)
    requires forall i :: 0 <= i < |names| ==> IsCompiled(wf, strategy, names[i])
    ensures NoDup(RenderAll(names))
  {
    hide Render, InUniverse;
  }

  // ----- when IDs are distinct

  /** No double underscore inside. */
  ghost predicate Plain(s: string) {
    forall i, j :: 0 <= i < j < |s| && j == i + 1 ==> s[i] != '_' || s[j] != '_'
  }

  /** And no underscore at the end. */
  ghost predicate EndsPlain(s: string) {
    Plain(s) && (s != "" ==> s[|s| - 1] != '_')
  }

  /**
   No double underscores in names and none at the end of a task's or an agent's, no agent called "cond",
   no agent that shares its name with one of its standalone tools, and no tool listed twice.
   */
  ghost predicate PlainNames(wf: Workflow)
    requires AgentsDefined(wf)
  {
    forall t :: t in wf.tasks ==>
      && EndsPlain(t) && EndsPlain(wf.tasks[t].agent) && wf.tasks[t].agent != "cond"
      && NoDup(ToolsOf(wf, t)) && wf.tasks[t].agent !in ToolsOf(wf, t)
      && forall tool :: tool in ToolsOf(wf, t) ==> Plain(tool)
  }

  /** The first double underscore behind a closed name is the separator. */
  lemma SeparatorIsFirst(a: string, u: string, i: nat)
    requires EndsPlain(a) && i < |a|
    ensures (a + "__" + u)[i] != '_' || (a + "__" + u)[i + 1] != '_'
  {
    var s := a + "__" + u;
    assert s[i] == a[i];
    if i + 1 < |a| {
      assert s[i + 1] == a[i + 1];
    }
  }

  lemma SeparatorAt(a: string, u: string)
    ensures (a + "__" + u)[|a|] == '_' && (a + "__" + u)[|a| + 1] == '_'
    ensures (a + "__" + u)[..|a|] == a && (a + "__" + u)[|a| + 2..] == u
  {
  }

  /** An ID falls apart at its first double underscore in one way only. */
  lemma FirstPart(a: string, u: string, b: string, v: string)
    requires EndsPlain(a) && EndsPlain(b) && a + "__" + u == b + "__" + v
    ensures a == b && u == v
  {
    NoEarlierSplit(a, u, b, v);
    NoEarlierSplit(b, v, a, u);
    SeparatorAt(a, u);
    SeparatorAt(b, v);
  }

  lemma NoEarlierSplit(a: string, u: string, b: string, v: string)
    requires EndsPlain(a) && a + "__" + u == b + "__" + v
    ensures |a| <= |b|
  {
    var s := a + "__" + u;
    SeparatorAt(b, v);
    forall i: nat | i < |a|
      ensures s[i] != '_' || s[i + 1] != '_'
    {
      SeparatorIsFirst(a, u, i);
    }
  }

  /** An ID's first part, and what follows the double underscore. */
  function Head(name: Name): string {
    if name.ConditionNode? then name.dep else name.task
  }

  function Rest(name: Name): string {
    match name
    case ToolNode(_, tool) => tool
    case TaskNode(_, agent) => agent
    case GateNode(_, agent) => agent + "__" + "hitl"
    case ConditionNode(_, task) => "cond" + "__" + task
  }

  lemma RenderParts(name: Name)
    ensures Render(name) == Head(name) + "__" + Rest(name)
    ensures EndsPlain("cond")
  {
    match name
    case ToolNode(_, _) =>
    case TaskNode(_, _) =>
    case GateNode(t, a) => assert t + "__" + a + "__hitl" == t + "__" + (a + "__" + "hitl");
    case ConditionNode(d, t) => assert d + "__cond__" + t == d + "__" + ("cond" + "__" + t);
  }

  lemma NotPlain(a: string, b: string)
    ensures !Plain(a + "__" + b)
  {
    SeparatorAt(a, b);
  }

  lemma PlainParts(wf: Workflow, name: Name)
    requires AgentsDefined(wf) && PlainNames(wf) && InUniverse(wf, name)
    ensures EndsPlain(Head(name))
    ensures !name.ConditionNode? ==> name.task in wf.tasks
    ensures name.ToolNode? ==> name.tool in ToolsOf(wf, name.task) && Plain(name.tool)
    ensures name.TaskNode? || name.GateNode? ==> name.agent == wf.tasks[name.task].agent && EndsPlain(name.agent)
  {
    hide Render, ToolsOf, Plain;
  }

  lemma RestDetermines(wf: Workflow, m: Name, n: Name)
    requires AgentsDefined(wf) && PlainNames(wf) && InUniverse(wf, m) && InUniverse(wf, n)
    requires Head(m) == Head(n) && Rest(m) == Rest(n)
    ensures m == n
  {
    PlainParts(wf, m);
    PlainParts(wf, n);
    RenderParts(m);
    hide InUniverse, Render;
    if m.GateNode? || m.ConditionNode? {
      NotPlain(if m.GateNode? then m.agent else "cond", if m.GateNode? then "hitl" else m.task);
    }
    if n.GateNode? || n.ConditionNode? {
      NotPlain(if n.GateNode? then n.agent else "cond", if n.GateNode? then "hitl" else n.task);
    }
    hide Plain;
    if (m.GateNode? || m.ConditionNode?) && (n.GateNode? || n.ConditionNode?) {
      FirstPart(if m.GateNode? then m.agent else "cond", if m.GateNode? then "hitl" else m.task,
                if n.GateNode? then n.agent else "cond", if n.GateNode? then "hitl" else n.task);
    }
  }

  lemma ChainOfPlain(wf: Workflow, t: string)
    requires AgentsDefined(wf) && t in wf.tasks && NoDup(ToolsOf(wf, t))
    ensures NoDup(Chain(wf, t))
  {
    hide ToolsOf;
  }

  /** A naming discipline a caller can check makes all compiled IDs distinct. */
  lemma PlainNamesGiveDistinctIds(wf: Workflow, strategy: Strategy)
    requires AgentsDefined(wf) && PlainNames(wf)
    ensures DistinctIds(wf, strategy)
  {
    hide InUniverse, Render, Chain, ToolsOf, Plain;
    forall m, n | IsCompiled(wf, strategy, m) && IsCompiled(wf, strategy, n) && Render(m) == Render(n)
      ensures m == n
    {
      PlainParts(wf, m);
      PlainParts(wf, n);
      RenderParts(m);
      RenderParts(n);
      FirstPart(Head(m), Rest(m), Head(n), Rest(n));
      RestDetermines(wf, m, n);
    }
    forall t | t in wf.tasks
      ensures NoDup(Chain(wf, t))
    {
      ChainOfPlain(wf, t);
    }
  }

  /** Two tasks whose nodes get the same ID: a run by b__c, and a__b run by c. */
  function AmbiguousWorkflow(a: string, b: string, c: string): Workflow {
    var first, second := b + "__" + c, a + "__" + b;
    Workflow(
      map[first := Agent([]), c := Agent([])],
      map[a := Task(first, [], [], false), second := Task(c, [], [], false)],
      _ => NoTool, [a, second], None)
  }

  /** Without that discipline, two tasks of one workflow can be compiled to one ID. */
  lemma AmbiguousIds(a: string, b: string, c: string, strategy: Strategy)
    ensures AgentsDefined(AmbiguousWorkflow(a, b, c)) && !DistinctIds(AmbiguousWorkflow(a, b, c), strategy)
  {
    var wf, first, second := AmbiguousWorkflow(a, b, c), b + "__" + c, a + "__" + b;
    var m, n := TaskNode(a, first), TaskNode(second, c);
    assert |a| < |second|;
    assert wf.tasks[a].agent == first && wf.tasks[second].agent == c;
    assert Chain(wf, a)[|Chain(wf, a)| - 1] == m && Chain(wf, second)[|Chain(wf, second)| - 1] == n;
    assert a + "__" + (b + "__" + c) == a + "__" + b + "__" + c;
    assert IsCompiled(wf, strategy, m) && IsCompiled(wf, strategy, n) && Render(m) == Render(n);
  }

  // ----- main results

  /** Compiled custom workflows have distinct IDs and closed edges, and are cyclic exactly when the dependencies are. */
  lemma CompiledDefinition(wf: Workflow, taskIDs: seq<string>, execIDs: seq<string>, gd: GraphDefinition)
    requires AgentsDefined(wf) && Enumerates(wf, taskIDs, execIDs) && AllTasks(wf, taskIDs) && DistinctIds(wf, CustomStrategy)
    requires Renders(gd, CompiledNames(wf, CustomStrategy, taskIDs, execIDs), CompiledWires(wf, CustomStrategy, taskIDs, execIDs))
    ensures NoDup(Ids(gd.nodes)) && Closed(gd)
    ensures LinksCompiled(wf, CustomStrategy, NameLinks(wf, taskIDs, execIDs))
    ensures Links(gd) == RenderLinks(NameLinks(wf, taskIDs, execIDs))
    ensures Cyclic(Links(gd)) <==> Cyclic(TaskLinks(wf))
  {
    var names, E := CompiledNames(wf, CustomStrategy, taskIDs, execIDs), NameLinks(wf, taskIDs, execIDs);
    assert ChainsDistinct(wf);
    LinksRendered(gd, names, CompiledWires(wf, CustomStrategy, taskIDs, execIDs));
    hide Render, Chain, CompiledNames, CompiledWires, NameLinks, InUniverse, DistinctIds, ChainsDistinct, Enumerates;
    CustomNames(wf, taskIDs, execIDs);
    NamesDistinctIds(wf, CustomStrategy, names);
    forall e | e in E
      ensures e.source in names && e.target in names
    {
      LinkEndsNamed(wf, taskIDs, execIDs, e.source, e.target);
    }
    EndsNamed(gd, names, E);
    hide RenderLinks, RenderAll;
    CompilationPreservesCycles(wf, taskIDs, execIDs);
    RenderedCycles(wf, CustomStrategy, E);
  }

  lemma EndsNamed(gd: GraphDefinition, names: seq<Name>, E: set<Edge<Name>>)
    requires Ids(gd.nodes) == RenderAll(names) && Links(gd) == RenderLinks(E)
    requires forall e :: e in E ==> e.source in names && e.target in names
    ensures Closed(gd)
  {
    hide Render, Ends, Ids;
    forall l | l in Ends(gd.edges)
      ensures l.source in Ids(gd.nodes) && l.target in Ids(gd.nodes)
    {
      assert l in Links(gd);
      var e :| e in E && l == Edge(Render(e.source), Render(e.target));
      var i :| 0 <= i < |names| && names[i] == e.source;
      var j :| 0 <= j < |names| && names[j] == e.target;
      assert RenderAll(names)[i] == l.source && RenderAll(names)[j] == l.target;
    }
  }

  /** Some node of task u leads to some node of task v in the compiled definition. */
  ghost predicate TaskLeadsTo(wf: Workflow, gd: GraphDefinition, u: string, v: string)
    requires AgentsDefined(wf) && u in wf.tasks && v in wf.tasks
  {
    exists a, b :: a in Chain(wf, u) && b in Chain(wf, v) && Reaches(Links(gd), Render(a), Render(b))
  }

  /** In the compiled definition, one task leads to another exactly when the other depends on it. */
  lemma CompiledReachability(wf: Workflow, taskIDs: seq<string>, execIDs: seq<string>, gd: GraphDefinition, u: string, v: string)
    requires AgentsDefined(wf) && Enumerates(wf, taskIDs, execIDs) && AllTasks(wf, taskIDs) && DistinctIds(wf, CustomStrategy)
    requires Renders(gd, CompiledNames(wf, CustomStrategy, taskIDs, execIDs), CompiledWires(wf, CustomStrategy, taskIDs, execIDs))
    requires u in wf.tasks && v in wf.tasks && u != v
    ensures TaskLeadsTo(wf, gd, u, v) <==> ReachesPlus(TaskLinks(wf), u, v)
  {
    var E := NameLinks(wf, taskIDs, execIDs);
    assert ChainsDistinct(wf);
    hide Render, CompiledNames, CompiledWires, NameLinks, DistinctIds, ChainsDistinct, Enumerates, TaskLinks, Renders;
    hide LinksCompiled, RenderLinks, Chain, Reaches, ReachesPlus;
    CompiledDefinition(wf, taskIDs, execIDs, gd);
    CompilationPreservesDependencies(wf, taskIDs, execIDs, u, v);
    TaskReachesRendered(wf, E, gd, u, v);
  }

  lemma TaskReachesRendered(wf: Workflow, E: set<Edge<Name>>, gd: GraphDefinition, u: string, v: string)
    requires AgentsDefined(wf) && DistinctIds(wf, CustomStrategy) && LinksCompiled(wf, CustomStrategy, E) && Links(gd) == RenderLinks(E)
    requires u in wf.tasks && v in wf.tasks
    ensures TaskLeadsTo(wf, gd, u, v) <==> TaskReaches(wf, E, u, v)
  {
    hide Render, DistinctIds, LinksCompiled, RenderLinks, Chain, Reaches;
    forall a, b | a in Chain(wf, u) && b in Chain(wf, v)
      ensures Reaches(Links(gd), Render(a), Render(b)) <==> Reaches(E, a, b)
    {
      var i :| 0 <= i < |Chain(wf, u)| && Chain(wf, u)[i] == a;
      var j :| 0 <= j < |Chain(wf, v)| && Chain(wf, v)[j] == b;
      ChainMembers(wf, u, i);
      ChainMembers(wf, v, j);
      RenderedReachability(wf, CustomStrategy, E, a, b);
    }
  }

  /** Compile, then look for cycles: silent exactly when no task depends on itself, directly or not. */
  method CompileAndDetect(wf: Workflow, taskIDs: seq<string>, execIDs: seq<string>)
    returns (r: Result<GraphDefinition, CompileError>, cycle: Option<seq<string>>)
    requires Enumerates(wf, taskIDs, execIDs)
    requires AgentsDefined(wf) ==> DistinctIds(wf, CustomStrategy)
    ensures r.Ok? <==> AgentsDefined(wf)
    ensures r.Ok? ==> (cycle.Some? <==> Cyclic(TaskLinks(wf)))
  {
    hide RenderAll, RenderWires, CompiledNames, CompiledWires, DistinctIds, Enumerates, TaskLinks, Ids;
    r := Compile(wf, CustomStrategy, taskIDs, execIDs);
    cycle := None;
    if r.Ok? {
      CompiledDefinition(wf, taskIDs, execIDs, r.value);
      cycle := DetectCycle(r.value);
    }
  }
}
