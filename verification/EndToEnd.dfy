/**
 From an agent workflow with the sequential strategy to the order in which its nodes execute:
 compilation, conversion to a graph and a completed sequential run, taken together.
 */
module EndToEnd {
  import opened Sequences
  import opened Digraphs
  import opened Kahn
  import opened Graphs
  import opened Definitions
  import opened Envelopes
  import opened Events
  import opened Worklists
  import opened SequentialRuntime
  import opened AgentWorkflows
  import opened AgentCompiler
  import opened CompilerLaws
  import opened CompiledGraphs

  // ----- lines

  /** The links of a list read as a path. */
  ghost function LineLinks<N>(line: seq<N>): set<Edge<N>> {
    set i, j | 0 <= i < |line| && 0 <= j < |line| && j == i + 1 :: Edge(line[i], line[j])
  }

  lemma LineJoin<N>(a: seq<N>, b: seq<N>)
    requires a != [] && b != []
    ensures LineLinks(a + b) == LineLinks(a) + {Edge(a[|a| - 1], b[0])} + LineLinks(b)
  {
    var ab := a + b;
    forall e
      ensures e in LineLinks(ab) <==> e in LineLinks(a) + {Edge(a[|a| - 1], b[0])} + LineLinks(b)
    {
      if i, j :| 0 <= i < j < |ab| && j == i + 1 && e == Edge(ab[i], ab[j]) {
        if j < |a| {
          assert e == Edge(a[i], a[j]);
        } else if i >= |a| {
          assert e == Edge(b[i - |a|], b[j - |a|]);
        }
      }
      if i, j :| 0 <= i < j < |a| && j == i + 1 && e == Edge(a[i], a[j]) {
        assert e == Edge(ab[i], ab[j]);
      }
      if i, j :| 0 <= i < j < |b| && j == i + 1 && e == Edge(b[i], b[j]) {
        assert ab[|a| + i] == b[i] && ab[|a| + j] == b[j];
        assert e == Edge(ab[|a| + i], ab[|a| + j]);
      }
      if e == Edge(a[|a| - 1], b[0]) {
        assert e == Edge(ab[|a| - 1], ab[|a|]);
      }
    }
  }

  /** On a line without repeats, each node's only successor is the next one. */
  lemma LineSuccessor<N(!new)>(E: seq<Edge<N>>, line: seq<N>, i: nat)
    requires NoDup(E) && NoDup(line) && EdgeSet(E) == LineLinks(line) && i < |line|
    ensures Targets(E, line[i]) == if i + 1 < |line| then [line[i + 1]] else []
  {
    var next := Targets(E, line[i]);
    NeighboursDistinct(E, line[i]);
    forall v
      ensures v in next <==> i + 1 < |line| && v == line[i + 1]
    {
      TargetsMembership(E, line[i], v);
      assert Edge(line[i], v) in E <==> Edge(line[i], v) in EdgeSet(E);
      if i + 1 < |line| && v == line[i + 1] {
        assert Edge(line[i], v) in LineLinks(line);
      }
    }
    hide LineLinks, Targets;
    OnlyElement(next, i + 1 < |line|, if i + 1 < |line| then line[i + 1] else line[i]);
  }

  lemma OnlyElement<N>(s: seq<N>, present: bool, x: N)
    requires NoDup(s) && forall v :: v in s <==> present && v == x
    ensures s == if present then [x] else []
  {
    ElementsCardinality(s);
    assert Elements(s) == if present then {x} else {};
    if present {
      assert s[0] in s;
    }
  }

  ghost function LineAppends<N>(line: seq<N>): seq<seq<N>> {
    seq(|line|, i requires 0 <= i < |line| => if i + 1 < |line| then [line[i + 1]] else [])
  }

  lemma {:induction false} LineFlattened<N(!new)>(line: seq<N>, k: nat)
    requires k <= |line| && line != []
    ensures Flatten(LineAppends(line)[..k]) == if k < |line| then line[1..k + 1] else line[1..]
  {
    if k > 0 {
      LineFlattened(line, k - 1);
      TakeNext(LineAppends(line), k - 1);
      FlattenAppend(LineAppends(line)[..k - 1], LineAppends(line)[k - 1]);
      if k < |line| {
        assert line[1..k] + [line[k]] == line[1..k + 1];
      } else {
        assert line[1..k] + [] == line[1..];
      }
    }
  }

  lemma NotBefore<N(!new)>(line: seq<N>, i: nat)
    requires NoDup(line) && i < |line|
    ensures Occurrences(line[..i], line[i]) == 0
  {
    assert forall k :: 0 <= k < i ==> line[..i][k] != line[i];
  }

  /** A plain run along a line dequeues the line. */
  lemma LineLog<N(!new)>(E: seq<Edge<N>>, maxHops: nat, line: seq<N>)
    requires NoDup(E) && NoDup(line) && line != [] && EdgeSet(E) == LineLinks(line) && maxHops >= 1
    ensures IsPlainLog(Flow(E, line[0]), maxHops, line, LineAppends(line))
  {
    var g, appended := Flow(E, line[0]), LineAppends(line);
    LineFollowsAll(E, maxHops, line);
    LineIsEnqueued(line);
    hide Targets, Capped, LineLinks, LineAppends, Flatten, NoDup, FollowsAll;
    forall i | 0 <= i < |line|
      ensures Capped(line, maxHops, i) ==> appended[i] == []
      ensures forall id :: id in appended[i] ==> id in g.Successors(line[i])
    {
      AppendedAt(g, maxHops, line, appended, i);
      CappedMeans(line, maxHops, i);
    }
  }

  lemma CappedMeans<N(!new)>(line: seq<N>, maxHops: nat, i: nat)
    requires i < |line|
    ensures Capped(line, maxHops, i) <==> Occurrences(line[..i], line[i]) >= maxHops
  {
  }

  lemma LineIsEnqueued<N(!new)>(line: seq<N>)
    requires line != []
    ensures line + [] == [line[0]] + Flatten(LineAppends(line))
    ensures forall i :: 0 <= i < |line| ==> i <= |Flatten(LineAppends(line)[..i])|
  {
    var appended := LineAppends(line);
    forall i | 0 <= i < |line|
      ensures i <= |Flatten(appended[..i])|
    {
      LineFlattened(line, i);
    }
    LineFlattened(line, |line|);
    hide Flatten, LineAppends;
    assert appended[..|line|] == appended;
    assert line == [line[0]] + line[1..];
  }

  lemma LineFollowsAll<N(!new)>(E: seq<Edge<N>>, maxHops: nat, line: seq<N>)
    requires NoDup(E) && NoDup(line) && line != [] && EdgeSet(E) == LineLinks(line) && maxHops >= 1
    ensures FollowsAll(Flow(E, line[0]), maxHops, line, LineAppends(line))
  {
    hide Targets, LineLinks, NoDup;
    forall i | 0 <= i < |line|
      ensures LineAppends(line)[i] == Targets(E, line[i]) && !Capped(line, maxHops, i)
    {
      LineSuccessor(E, line, i);
      NotBefore(line, i);
    }
  }

  lemma {:induction false} UncappedAttempts<N(!new)>(line: seq<N>, maxHops: nat)
    requires NoDup(line) && maxHops >= 1
    ensures Attempted(line, maxHops) == line
  {
    if line != [] {
      var last := |line| - 1;
      NotBefore(line, last);
      UncappedAttempts(line[..last], maxHops);
      SplitLast(line);
    }
  }

  // ----- the links of a sequentially compiled workflow

  ghost predicate NoReferences(wf: Workflow) {
    forall t :: t in wf.tasks ==>
      wf.tasks[t].context == [] && forall i :: 0 <= i < |wf.tasks[t].inputs| ==> wf.tasks[t].inputs[i].refs == []
  }

  lemma {:induction false} NoInputWires(wf: Workflow, t: string, inputs: seq<Input>)
    requires AgentsDefined(wf) && t in wf.tasks && forall i :: 0 <= i < |inputs| ==> inputs[i].refs == []
    ensures InputWires(wf, t, inputs) == []
  {
    if inputs != [] {
      NoInputWires(wf, t, inputs[..|inputs| - 1]);
    }
  }

  lemma {:induction false} NoReferenceWires(wf: Workflow, ids: seq<string>)
    requires AgentsDefined(wf) && AllTasks(wf, ids) && NoReferences(wf)
    ensures ReferenceWires(wf, ids) == []
  {
    if ids != [] {
      NoReferenceWires(wf, ids[..|ids| - 1]);
      NoInputWires(wf, ids[|ids| - 1], wf.tasks[ids[|ids| - 1]].inputs);
    }
  }

  lemma NoLinks<N>(n: N)
    ensures LineLinks([n]) == {}
  {
  }

  lemma {:induction false} ChainLinks(names: seq<Name>)
    ensures WireLinks(ChainWires(names)) == LineLinks(names)
  {
    if |names| >= 2 {
      hide LineLinks, WireLinks, ChainWires;
      ChainLinks(names[..|names| - 1]);
      ChainGrows(names);
      LineGrowsByOne(names);
    }
  }

  lemma ChainGrows(names: seq<Name>)
    requires |names| >= 2
    ensures WireLinks(ChainWires(names))
         == WireLinks(ChainWires(names[..|names| - 1])) + {Edge(names[|names| - 2], names[|names| - 1])}
  {
    hide LinkHandle, OutputHandle, WireLinks;
    var last := |names| - 1;
    var w := Wire(names[last - 1], OutputHandle(), names[last], LinkHandle(names[last]));
    LinksGrow(ChainWires(names[..last]), [w]);
    OneWire(w);
  }

  lemma LineGrowsByOne<N>(names: seq<N>)
    requires |names| >= 2
    ensures LineLinks(names) == LineLinks(names[..|names| - 1]) + {Edge(names[|names| - 2], names[|names| - 1])}
  {
    hide LineLinks;
    var last := |names| - 1;
    LineJoin(names[..last], [names[last]]);
    SplitLast(names);
    NoLinks(names[last]);
  }

  lemma {:induction false} TaskWireLinks(wf: Workflow, ids: seq<string>, e: Edge<Name>)
    requires AgentsDefined(wf) && AllTasks(wf, ids)
    ensures e in WireLinks(TaskWires(wf, ids)) <==> exists t :: t in Elements(ids) && t in wf.tasks && e in LineLinks(Chain(wf, t))
  {
    hide Chain, ChainWires, LineLinks;
    if ids != [] {
      var front, last := ids[..|ids| - 1], ids[|ids| - 1];
      TaskWireLinks(wf, front, e);
      LinksGrow(TaskWires(wf, front), ChainWires(Chain(wf, last)));
      ChainLinks(Chain(wf, last));
      assert ids == front + [last];
      hide WireLinks;
      assert Elements(ids) == Elements(front) + {last};
    }
  }

  lemma {:induction false} OrderEnds(wf: Workflow, order: seq<string>)
    requires AgentsDefined(wf) && AllTasks(wf, order) && order != []
    ensures TaskNodes(wf, order) != [] && TaskNodes(wf, order)[0] == StartOf(wf, order[0])
    ensures TaskNodes(wf, order)[|TaskNodes(wf, order)| - 1] == OutputOf(wf, order[|order| - 1])
  {
    hide Chain;
    if |order| > 1 {
      OrderEnds(wf, order[..|order| - 1]);
    }
  }

  /** Following task_order, the wires within and between tasks form one line. */
  lemma {:induction false} OrderIsALine(wf: Workflow, order: seq<string>)
    requires AgentsDefined(wf) && AllTasks(wf, order) && order != []
    ensures LineLinks(TaskNodes(wf, order)) == WireLinks(TaskWires(wf, order)) + WireLinks(OrderWires(wf, order))
  {
    hide WireLinks, Chain, TaskWires, OrderWires, LineLinks, OutputOf, StartOf, TaskNodes;
    TaskWiresGrow(wf, order);
    if |order| == 1 {
      OneTaskIsALine(wf, order);
    } else {
      OrderIsALine(wf, order[..|order| - 1]);
      OrderWiresGrow(wf, order);
      LineGrows(wf, order);
    }
  }

  lemma LineGrows(wf: Workflow, order: seq<string>)
    requires AgentsDefined(wf) && AllTasks(wf, order) && |order| > 1
    ensures LineLinks(TaskNodes(wf, order))
         == LineLinks(TaskNodes(wf, order[..|order| - 1])) + LineLinks(Chain(wf, order[|order| - 1]))
            + {Edge(OutputOf(wf, order[|order| - 2]), StartOf(wf, order[|order| - 1]))}
  {
    hide LineLinks, Chain, OutputOf, StartOf;
    var front, last := order[..|order| - 1], order[|order| - 1];
    OrderEnds(wf, front);
    LineJoin(TaskNodes(wf, front), Chain(wf, last));
    ChainStart(wf, last);
  }

  lemma ChainStart(wf: Workflow, t: string)
    requires AgentsDefined(wf) && t in wf.tasks
    ensures Chain(wf, t)[0] == StartOf(wf, t)
  {
  }

  lemma OneTaskIsALine(wf: Workflow, order: seq<string>)
    requires AgentsDefined(wf) && AllTasks(wf, order) && |order| == 1
    ensures TaskNodes(wf, order) == Chain(wf, order[0])
    ensures WireLinks(TaskWires(wf, order[..0])) == {} && WireLinks(OrderWires(wf, order)) == {}
  {
    hide Chain;
  }

  lemma TaskWiresGrow(wf: Workflow, order: seq<string>)
    requires AgentsDefined(wf) && AllTasks(wf, order) && order != []
    ensures WireLinks(TaskWires(wf, order))
         == WireLinks(TaskWires(wf, order[..|order| - 1])) + LineLinks(Chain(wf, order[|order| - 1]))
  {
    hide Chain, ChainWires, LineLinks, WireLinks;
    LinksGrow(TaskWires(wf, order[..|order| - 1]), ChainWires(Chain(wf, order[|order| - 1])));
    ChainLinks(Chain(wf, order[|order| - 1]));
  }

  lemma OrderWiresGrow(wf: Workflow, order: seq<string>)
    requires AgentsDefined(wf) && AllTasks(wf, order) && |order| >= 2
    ensures WireLinks(OrderWires(wf, order))
         == WireLinks(OrderWires(wf, order[..|order| - 1]))
            + {Edge(OutputOf(wf, order[|order| - 2]), StartOf(wf, order[|order| - 1]))}
  {
    hide Chain, WireLinks, OutputHandle, InputHandle, OutputOf, StartOf;
    var last := |order| - 1;
    var w := Wire(OutputOf(wf, order[last - 1]), OutputHandle(), StartOf(wf, order[last]), InputHandle());
    OneWire(w);
    LinksGrow(OrderWires(wf, order[..last]), [w]);
  }

  /** task_order covers every task. */
  ghost predicate Covers(wf: Workflow, taskIDs: seq<string>) {
    wf.taskOrder != [] && AllTasks(wf, wf.taskOrder) && Elements(wf.taskOrder) == Elements(taskIDs)
  }

  /** The links of a sequentially compiled workflow: the line of its order, and its references. */
  ghost function OrderLinks(wf: Workflow, taskIDs: seq<string>, execIDs: seq<string>): set<Edge<Name>>
    requires AgentsDefined(wf) && AllTasks(wf, taskIDs)
  {
    WireLinks(CompiledWires(wf, SequentialStrategy, taskIDs, execIDs))
  }

  lemma OrderLinkIs(wf: Workflow, taskIDs: seq<string>, execIDs: seq<string>, e: Edge<Name>)
    requires AgentsDefined(wf) && AllTasks(wf, taskIDs) && Covers(wf, taskIDs)
    ensures e in OrderLinks(wf, taskIDs, execIDs) <==>
              e in LineLinks(TaskNodes(wf, wf.taskOrder)) || e in WireLinks(ReferenceWires(wf, taskIDs))
  {
    hide Chain, LineLinks, TaskWires, OrderWires, TaskNodes, ReferenceWires, WireLinks;
    LinksGrow(TaskWires(wf, taskIDs), ReferenceWires(wf, taskIDs));
    LinksGrow(TaskWires(wf, taskIDs) + ReferenceWires(wf, taskIDs), OrderWires(wf, wf.taskOrder));
    TaskWireLinks(wf, taskIDs, e);
    TaskWireLinks(wf, wf.taskOrder, e);
    OrderIsALine(wf, wf.taskOrder);
  }

  lemma SequentialLinks(wf: Workflow, taskIDs: seq<string>, execIDs: seq<string>)
    requires AgentsDefined(wf) && AllTasks(wf, taskIDs) && NoReferences(wf) && Covers(wf, taskIDs)
    ensures OrderLinks(wf, taskIDs, execIDs) == LineLinks(TaskNodes(wf, wf.taskOrder))
  {
    NoReferenceWires(wf, taskIDs);
    assert WireLinks([]) == {};
    hide LineLinks, TaskNodes, OrderLinks, ReferenceWires, WireLinks;
    forall e
      ensures e in OrderLinks(wf, taskIDs, execIDs) <==> e in LineLinks(TaskNodes(wf, wf.taskOrder))
    {
      OrderLinkIs(wf, taskIDs, execIDs, e);
    }
  }

  lemma RenderedLine(names: seq<Name>)
    ensures RenderLinks(LineLinks(names)) == LineLinks(RenderAll(names))
  {
    hide Render;
    var ids := RenderAll(names);
    forall e
      ensures e in RenderLinks(LineLinks(names)) <==> e in LineLinks(ids)
    {
      if l :| l in LineLinks(names) && e == Edge(Render(l.source), Render(l.target)) {
        var i, j :| 0 <= i < j < |names| && j == i + 1 && l == Edge(names[i], names[j]);
        assert e == Edge(ids[i], ids[j]);
      }
      if i, j :| 0 <= i < j < |ids| && j == i + 1 && e == Edge(ids[i], ids[j]) {
        assert Edge(names[i], names[j]) in LineLinks(names);
      }
    }
  }

  /** The compiled definition is a line through the tasks in order, entered at its first node. */
  lemma SequentialDefinition(wf: Workflow, taskIDs: seq<string>, execIDs: seq<string>, gd: GraphDefinition)
    requires AgentsDefined(wf) && Enumerates(wf, taskIDs, execIDs) && AllTasks(wf, taskIDs) && DistinctIds(wf, SequentialStrategy)
    requires NoReferences(wf) && Covers(wf, taskIDs) && NoDup(wf.taskOrder)
    requires Renders(gd, CompiledNames(wf, SequentialStrategy, taskIDs, execIDs),
                     CompiledWires(wf, SequentialStrategy, taskIDs, execIDs))
    requires gd.entry == CompiledEntry(wf, SequentialStrategy, taskIDs)
    ensures NoDup(RenderAll(TaskNodes(wf, wf.taskOrder))) && RenderAll(TaskNodes(wf, wf.taskOrder)) != []
    ensures NoDup(Ids(gd.nodes)) && Elements(Ids(gd.nodes)) == Elements(RenderAll(TaskNodes(wf, wf.taskOrder)))
    ensures Links(gd) == LineLinks(RenderAll(TaskNodes(wf, wf.taskOrder)))
    ensures gd.entry == RenderAll(TaskNodes(wf, wf.taskOrder))[0] && gd.entry != ""
  {
    var line := TaskNodes(wf, wf.taskOrder);
    EntryRendered(StartOf(wf, wf.taskOrder[0]));
    assert ChainsDistinct(wf);
    LinksRendered(gd, TaskNodes(wf, taskIDs), CompiledWires(wf, SequentialStrategy, taskIDs, execIDs));
    SequentialLinks(wf, taskIDs, execIDs);
    OrderEnds(wf, wf.taskOrder);
    hide Render, TaskNodes, LineLinks, RenderLinks, WireLinks, InUniverse, DistinctIds, ChainsDistinct, CompiledWires, StartOf;
    hide NoReferences, NoDup, Elements;
    RenderedLine(line);
    TaskIdsDistinct(wf, taskIDs);
    TaskIdsDistinct(wf, wf.taskOrder);
    SameTasksSameIds(wf, taskIDs, wf.taskOrder);
  }

  lemma TaskIdsDistinct(wf: Workflow, ids: seq<string>)
    requires AgentsDefined(wf) && AllTasks(wf, ids) && DistinctIds(wf, SequentialStrategy) && NoDup(ids)
    ensures NoDup(RenderAll(TaskNodes(wf, ids)))
  {
    assert ChainsDistinct(wf);
    hide TaskNodes, RenderAll, DistinctIds, ChainsDistinct, NoDup, IsCompiled;
    TaskNodesDistinct(wf, ids);
    TaskNodesCompiled(wf, ids);
    NamesDistinctIds(wf, SequentialStrategy, TaskNodes(wf, ids));
  }

  lemma SameTasksSameIds(wf: Workflow, ids: seq<string>, others: seq<string>)
    requires AgentsDefined(wf) && AllTasks(wf, ids) && AllTasks(wf, others) && Elements(ids) == Elements(others)
    ensures Elements(RenderAll(TaskNodes(wf, ids))) == Elements(RenderAll(TaskNodes(wf, others)))
  {
    hide TaskNodes;
    SameTasksSameNodes(wf, ids, others);
    SameTasksSameNodes(wf, others, ids);
  }

  lemma TaskNodesCompiled(wf: Workflow, ids: seq<string>)
    requires AgentsDefined(wf) && AllTasks(wf, ids)
    ensures forall i :: 0 <= i < |TaskNodes(wf, ids)| ==> IsCompiled(wf, SequentialStrategy, TaskNodes(wf, ids)[i])
  {
    TaskNodesInUniverse(wf, ids);
    hide TaskNodes, InUniverse;
    forall i | 0 <= i < |TaskNodes(wf, ids)|
      ensures IsCompiled(wf, SequentialStrategy, TaskNodes(wf, ids)[i])
    {
      TaskNodesBelong(wf, ids, TaskNodes(wf, ids)[i]);
    }
  }

  lemma EntryRendered(name: Name)
    ensures Render(name) != ""
  {
  }

  lemma SameTasksSameNodes(wf: Workflow, ids: seq<string>, others: seq<string>)
    requires AgentsDefined(wf) && AllTasks(wf, ids) && AllTasks(wf, others) && Elements(ids) == Elements(others)
    ensures Elements(RenderAll(TaskNodes(wf, ids))) <= Elements(RenderAll(TaskNodes(wf, others)))
  {
    hide Render, Chain, TaskNodes;
    var names, others' := TaskNodes(wf, ids), TaskNodes(wf, others);
    forall id | id in RenderAll(names)
      ensures id in RenderAll(others')
    {
      var i :| 0 <= i < |names| && RenderAll(names)[i] == id;
      var name := names[i];
      NodeOfOrder(wf, ids, others, name);
      var k :| 0 <= k < |others'| && others'[k] == name;
      assert RenderAll(others')[k] == id;
    }
  }

  // ----- running it

  /** A factory that makes a live, non-routing node with the definition's own ID for every definition. */
  ghost predicate PlainFactory(factory: Factory) {
    forall nd :: factory(nd).Ok? && factory(nd).value.Some? && factory(nd).value.value.id == nd.id
                 && !factory(nd).value.value.kind.Router?
  }

  lemma {:induction false} MadeIsPlain(nodes: seq<NodeDef>, factory: Factory)
    requires PlainFactory(factory) && AllMade(nodes, factory)
    ensures forall id :: id in MadeNodes(nodes, factory) ==> !MadeNodes(nodes, factory)[id].kind.Router?
  {
    if nodes != [] {
      MadeIsPlain(nodes[..|nodes| - 1], factory);
    }
  }

  /** Such a definition builds, and the graph runs along the line. */
  lemma LineBuilds(gd: GraphDefinition, factory: Factory, line: seq<string>)
    requires PlainFactory(factory) && NoDup(Ids(gd.nodes)) && Elements(Ids(gd.nodes)) == Elements(line)
    requires NoDup(line) && line != [] && Links(gd) == LineLinks(line) && gd.entry == line[0] && gd.entry != ""
    ensures AllMade(gd.nodes, factory) && Buildable(gd, factory)
    ensures EdgeSet(Meaning(gd, factory).edges) == LineLinks(line) && NoDup(Meaning(gd, factory).edges)
    ensures Meaning(gd, factory).entry == line[0]
    ensures Meaning(gd, factory).Validate().None?
    ensures forall id :: id in Meaning(gd, factory).nodes ==> !Meaning(gd, factory).nodes[id].kind.Router?
  {
    assert AllMade(gd.nodes, factory);
    assert MadeIds(gd.nodes, factory) == Ids(gd.nodes);
    forall e | e in Ends(gd.edges)
      ensures e.source in Elements(line) && e.target in Elements(line)
    {
      assert e in LineLinks(line);
    }
    hide LineLinks;
    DistinctKeepsLinks(Ends(gd.edges));
    MadeNodesKeys(gd.nodes, factory);
    MadeIsPlain(gd.nodes, factory);
    assert line[0] in Elements(line);
  }

  /** A completed plain run over a line executes the line. */
  lemma LineRun(E: seq<Edge<string>>, entry: string, maxHops: nat, line: seq<string>, popped: seq<string>,
                appended: seq<seq<string>>)
    requires NoDup(E) && NoDup(line) && line != [] && EdgeSet(E) == LineLinks(line) && maxHops >= 1 && entry == line[0]
    requires IsPlainLog(Flow(E, entry), maxHops, popped, appended)
    ensures popped == line && Attempted(popped, maxHops) == line
  {
    LineLog(E, maxHops, line);
    hide IsPlainLog, LineLinks, Attempted;
    LogIsDetermined(Flow(E, entry), maxHops, popped, appended, line, LineAppends(line));
    UncappedAttempts(line, maxHops);
  }

  /**
   Compile, build, run. With a repeat-free task_order over all tasks, no references and distinct IDs,
   a completed run executes every compiled node exactly once, task by task in task_order, and within
   each task its standalone tools, then the task itself, then its human gate.
   */
  method CompileAndRun(wf: Workflow, taskIDs: seq<string>, execIDs: seq<string>,
                       factory: Factory, env: Option<Envelope>, options: Options, world: World, emitter: Emitter)
    returns (gd: GraphDefinition, outcome: Outcome, executed: seq<string>)
    requires AgentsDefined(wf) && Enumerates(wf, taskIDs, execIDs) && DistinctIds(wf, SequentialStrategy)
    requires NoReferences(wf) && Covers(wf, taskIDs) && NoDup(wf.taskOrder)
    requires PlainFactory(factory) && NeverSkips(world) && NeverRedirects(world) && (env.None? || Unrouted(env.value))
    requires emitter.Valid() && emitter.log == []
    modifies emitter
    ensures outcome == Completed ==> executed == RenderAll(TaskNodes(wf, wf.taskOrder))
    ensures outcome == Completed ==> NoDup(executed) && Elements(executed) == Elements(Ids(gd.nodes))
    ensures PhaseAfter(emitter.Trace()) == After && Started(emitter.Trace()) == executed
  {
    hide RenderAll, RenderWires, TaskNodes, CompiledWires, DistinctIds, Enumerates, Ids, Render, NeverSkips, NeverRedirects;
    hide Unrouted, PlainFactory, NoReferences, IsLog, FollowsAll, Attempted, Buildable, LineLinks, Elements, NoDup, StartOf;
    hide Started, PhaseAfter, Graph.WellFormed, AllMade, Graph.Validate;
    var compiled := Compile(wf, SequentialStrategy, taskIDs, execIDs);
    gd := compiled.value;
    SequentialDefinition(wf, taskIDs, execIDs, gd);
    ghost var line := RenderAll(TaskNodes(wf, wf.taskOrder));
    LineBuilds(gd, factory, line);
    var built := ToGraph(gd, Some(factory));
    var g := Graph(built.value.nodeOrder, built.value.nodes, built.value.edges, built.value.entry);
    var rejected, current, hopCount;
    ghost var popped, appended;
    rejected, outcome, current, hopCount, executed, popped, appended := Run(g, env, options, world, emitter);
    if outcome == Completed {
      LineRun(g.edges, g.entry, EffectiveMaxHops(options), line, popped, appended);
    }
  }

  // ----- repeats in task_order

  lemma {:induction false} OrderWireIn(wf: Workflow, order: seq<string>, i: nat)
    requires AgentsDefined(wf) && AllTasks(wf, order) && i + 1 < |order|
    ensures Edge(OutputOf(wf, order[i]), StartOf(wf, order[i + 1])) in WireLinks(OrderWires(wf, order))
  {
    hide Chain, OutputHandle, InputHandle, OutputOf, StartOf;
    var last := |order| - 1;
    OrderWiresGrow(wf, order);
    hide WireLinks, OrderWires;
    if i + 1 < last {
      OrderWireIn(wf, order[..last], i);
    }
  }

  lemma {:induction false} ChainPath(wf: Workflow, ids: seq<string>, E: set<Edge<Name>>, t: string, i: nat)
    requires AgentsDefined(wf) && AllTasks(wf, ids) && WireLinks(TaskWires(wf, ids)) <= E
    requires t in ids && t in wf.tasks && i < |Chain(wf, t)|
    ensures Reaches(E, StartOf(wf, t), Chain(wf, t)[i])
  {
    hide Chain, WireLinks;
    if i == 0 {
      ReachesSelf(E, StartOf(wf, t));
    } else {
      ChainPath(wf, ids, E, t, i - 1);
      TaskWireIn(wf, ids, t, i - 1);
      ReachesEdge(E, Chain(wf, t)[i - 1], Chain(wf, t)[i]);
      ReachesTransitive(E, StartOf(wf, t), Chain(wf, t)[i - 1], Chain(wf, t)[i]);
    }
  }

  /** Each task in the order leads to every later one. */
  lemma {:induction false} OrderLeadsOn(wf: Workflow, order: seq<string>, E: set<Edge<Name>>, i: nat, j: nat)
    requires AgentsDefined(wf) && AllTasks(wf, order)
    requires WireLinks(TaskWires(wf, order)) <= E && WireLinks(OrderWires(wf, order)) <= E
    requires i < j < |order|
    ensures ReachesPlus(E, OutputOf(wf, order[i]), OutputOf(wf, order[j]))
    decreases j
  {
    hide Chain, WireLinks, OutputOf, StartOf, ReachesPlus, Reaches;
    OrderStep(wf, order, E, j);
    if i < j - 1 {
      var a, b, c := OutputOf(wf, order[i]), OutputOf(wf, order[j - 1]), OutputOf(wf, order[j]);
      OrderLeadsOn(wf, order, E, i, j - 1);
      PlusIsReaches(E, a, b);
      PlusIsReaches(E, b, c);
      ReachesTransitive(E, a, b, c);
    }
  }

  lemma OrderStep(wf: Workflow, order: seq<string>, E: set<Edge<Name>>, j: nat)
    requires AgentsDefined(wf) && AllTasks(wf, order)
    requires WireLinks(TaskWires(wf, order)) <= E && WireLinks(OrderWires(wf, order)) <= E
    requires 0 < j < |order|
    ensures ReachesPlus(E, OutputOf(wf, order[j - 1]), OutputOf(wf, order[j]))
  {
    var a, s, b := OutputOf(wf, order[j - 1]), StartOf(wf, order[j]), OutputOf(wf, order[j]);
    assert Edge(a, s) in E by {
      hide OutputOf, StartOf;
      OrderWireIn(wf, order, j - 1);
    }
    assert Reaches(E, s, b) by {
      ChainPath(wf, order, E, order[j], |Chain(wf, order[j])| - 1);
    }
    hide WireLinks, OutputOf, StartOf, TaskWires, OrderWires;
    ReachesEdge(E, a, s);
    ReachesTransitive(E, a, s, b);
  }

  lemma LineForward<N>(line: seq<N>, k: nat, e: Edge<N>)
    requires NoDup(line) && k < |line| && e in LineLinks(line) && e.target == line[k]
    ensures e.source in line[..k]
  {
    var i, j :| 0 <= i < j < |line| && j == i + 1 && e == Edge(line[i], line[j]);
    assert line[..k][i] == line[i];
  }

  // ----- references under the sequential strategy

  /** From the output of a task to the start of one that refers to it. */
  ghost predicate IsReference(wf: Workflow, e: Edge<Name>)
    requires AgentsDefined(wf)
  {
    exists t, u :: t in wf.tasks && u in wf.tasks && RefersTo(wf, t, u) && e == Edge(OutputOf(wf, u), StartOf(wf, t))
  }

  lemma {:induction false} RefWiresAreReferences(wf: Workflow, t: string, refs: seq<string>, handle: string, e: Edge<Name>)
    requires AgentsDefined(wf) && t in wf.tasks && (forall u :: u in refs ==> RefersTo(wf, t, u))
    requires e in WireLinks(RefWires(wf, t, refs, handle))
    ensures IsReference(wf, e)
  {
    hide Chain, StartOf, OutputOf, OutputHandle, RefersTo;
    if refs != [] {
      var front, last := refs[..|refs| - 1], refs[|refs| - 1];
      assert last in refs && forall u :: u in front ==> u in refs;
      var added := if last in wf.tasks then [Wire(OutputOf(wf, last), OutputHandle(), StartOf(wf, t), handle)] else [];
      LinksGrow(RefWires(wf, t, front, handle), added);
      if e in WireLinks(RefWires(wf, t, front, handle)) {
        RefWiresAreReferences(wf, t, front, handle, e);
      } else {
        OneWire(added[0]);
      }
    }
  }

  lemma {:induction false} InputWiresAreReferences(wf: Workflow, t: string, n: nat, e: Edge<Name>)
    requires AgentsDefined(wf) && t in wf.tasks && n <= |wf.tasks[t].inputs|
    requires e in WireLinks(InputWires(wf, t, wf.tasks[t].inputs[..n]))
    ensures IsReference(wf, e)
  {
    hide Chain, StartOf, OutputOf, RefWires;
    if n > 0 {
      var inputs := wf.tasks[t].inputs;
      var last := inputs[n - 1];
      assert inputs[..n][..n - 1] == inputs[..n - 1] && inputs[..n][n - 1] == last;
      LinksGrow(InputWires(wf, t, inputs[..n - 1]), RefWires(wf, t, last.refs, last.param));
      hide WireLinks;
      if e in WireLinks(InputWires(wf, t, inputs[..n - 1])) {
        InputWiresAreReferences(wf, t, n - 1, e);
      } else {
        RefWiresAreReferences(wf, t, last.refs, last.param, e);
      }
    }
  }

  lemma {:induction false} ReferenceWiresAreReferences(wf: Workflow, ids: seq<string>, e: Edge<Name>)
    requires AgentsDefined(wf) && AllTasks(wf, ids) && e in WireLinks(ReferenceWires(wf, ids))
    ensures IsReference(wf, e)
  {
    hide Chain, StartOf, OutputOf, RefWires, InputWires, ContextHandle;
    if ids != [] {
      var front, t := ids[..|ids| - 1], ids[|ids| - 1];
      var inputs, context := InputWires(wf, t, wf.tasks[t].inputs), RefWires(wf, t, wf.tasks[t].context, ContextHandle());
      LinksGrow(inputs, context);
      LinksGrow(ReferenceWires(wf, front), inputs + context);
      hide WireLinks;
      if e in WireLinks(ReferenceWires(wf, front)) {
        ReferenceWiresAreReferences(wf, front, e);
      } else if e in WireLinks(inputs) {
        assert wf.tasks[t].inputs[..|wf.tasks[t].inputs|] == wf.tasks[t].inputs;
        InputWiresAreReferences(wf, t, |wf.tasks[t].inputs|, e);
      } else {
        RefWiresAreReferences(wf, t, wf.tasks[t].context, ContextHandle(), e);
      }
    }
  }

  /** u comes strictly before some occurrence of t. */
  ghost predicate Earlier(order: seq<string>, u: string, t: string) {
    exists i, j :: 0 <= i < j < |order| && order[i] == u && order[j] == t
  }

  /** Tasks refer only to tasks strictly earlier in the order. */
  ghost predicate RefersBack(wf: Workflow) {
    forall t, u :: t in wf.tasks && u in wf.tasks && RefersTo(wf, t, u) ==> Earlier(wf.taskOrder, u, t)
  }

  lemma {:induction false} TaskNodesPrefix(wf: Workflow, order: seq<string>, j: nat)
    requires AgentsDefined(wf) && AllTasks(wf, order) && j <= |order|
    ensures TaskNodes(wf, order[..j]) <= TaskNodes(wf, order)
    ensures j < |order| ==> |TaskNodes(wf, order[..j])| < |TaskNodes(wf, order)|
                            && TaskNodes(wf, order)[|TaskNodes(wf, order[..j])|] == StartOf(wf, order[j])
    decreases |order|
  {
    hide Chain;
    if j == |order| {
      assert order[..j] == order;
    } else if j == |order| - 1 {
      ChainStart(wf, order[j]);
    } else {
      var front := order[..|order| - 1];
      TaskNodesPrefix(wf, front, j);
      assert front[..j] == order[..j] && front[j] == order[j];
    }
  }

  /** A backward reference points forward along the line. */
  lemma ReferenceForward(wf: Workflow, k: nat, t: string, u: string)
    requires AgentsDefined(wf) && ChainsDistinct(wf) && AllTasks(wf, wf.taskOrder) && NoDup(wf.taskOrder)
    requires t in wf.tasks && u in wf.tasks && Earlier(wf.taskOrder, u, t)
    requires k < |TaskNodes(wf, wf.taskOrder)| && TaskNodes(wf, wf.taskOrder)[k] == StartOf(wf, t)
    ensures OutputOf(wf, u) in TaskNodes(wf, wf.taskOrder)[..k]
  {
    var order := wf.taskOrder;
    var i, j :| 0 <= i < j < |order| && order[i] == u && order[j] == t;
    TaskNodesPrefix(wf, order, j);
    TaskNodesDistinct(wf, order);
    var before := TaskNodes(wf, order[..j]);
    assert k == |before|;
    assert order[..j][i] == u;
    TaskNodesContain(wf, order[..j], u, |Chain(wf, u)| - 1);
    hide Chain, TaskNodes;
    assert TaskNodes(wf, order)[..k] == before;
  }

  lemma BackwardOrderIsAcyclic(wf: Workflow, taskIDs: seq<string>, execIDs: seq<string>)
    requires AgentsDefined(wf) && AllTasks(wf, taskIDs) && ChainsDistinct(wf) && Covers(wf, taskIDs)
    requires NoDup(wf.taskOrder) && RefersBack(wf)
    ensures !Cyclic(OrderLinks(wf, taskIDs, execIDs))
  {
    var E, line := OrderLinks(wf, taskIDs, execIDs), TaskNodes(wf, wf.taskOrder);
    TaskNodesDistinct(wf, wf.taskOrder);
    hide Chain, TaskNodes, OrderLinks, ChainsDistinct, RefersTo;
    forall k, e | 0 <= k < |line| && e in E && e.target == line[k]
      ensures e.source in line[..k]
    {
      OrderLinkIs(wf, taskIDs, execIDs, e);
      if e in LineLinks(line) {
        LineForward(line, k, e);
      } else {
        ReferenceWiresAreReferences(wf, taskIDs, e);
        var t, u :| t in wf.tasks && u in wf.tasks && RefersTo(wf, t, u) && e == Edge(OutputOf(wf, u), StartOf(wf, t));
        ReferenceForward(wf, k, t, u);
      }
    }
    forall e | e in E
      ensures e.target in line
    {
      OrderLinkIs(wf, taskIDs, execIDs, e);
      if e !in LineLinks(line) {
        ReferenceWiresAreReferences(wf, taskIDs, e);
        var t, u :| t in wf.tasks && u in wf.tasks && RefersTo(wf, t, u) && e == Edge(OutputOf(wf, u), StartOf(wf, t));
        assert t in Elements(wf.taskOrder) by {
          assert Earlier(wf.taskOrder, u, t);
        }
        ChainStart(wf, t);
        TaskNodesContain(wf, wf.taskOrder, t, 0);
      }
    }
    ForwardListingMeansAcyclic(E, line);
  }

  /** A reference to a later task, or to the task itself, closes a cycle. */
  lemma ForwardReferenceCycles(wf: Workflow, E: set<Edge<Name>>, t: string, u: string)
    requires AgentsDefined(wf) && AllTasks(wf, wf.taskOrder) && t in wf.tasks && u in wf.tasks
    requires WireLinks(TaskWires(wf, wf.taskOrder)) <= E && WireLinks(OrderWires(wf, wf.taskOrder)) <= E
    requires Edge(OutputOf(wf, u), StartOf(wf, t)) in E
    requires t in wf.taskOrder && u in wf.taskOrder && !Earlier(wf.taskOrder, u, t)
    ensures Cyclic(E)
  {
    var order := wf.taskOrder;
    var s, b, a := StartOf(wf, t), OutputOf(wf, t), OutputOf(wf, u);
    ChainPath(wf, order, E, t, |Chain(wf, t)| - 1);
    var j :| 0 <= j < |order| && order[j] == t;
    var i :| 0 <= i < |order| && order[i] == u;
    hide Chain, WireLinks, TaskWires, OrderWires;
    assert Reaches(E, b, a) by {
      if i == j {
        ReachesSelf(E, b);
      } else {
        OrderLeadsOn(wf, order, E, j, i);
        PlusIsReaches(E, b, a);
      }
    }
    ReachesTransitive(E, s, b, a);
    ReachesEdge(E, a, s);
    ReachesTransitive(E, a, s, a);
  }

  /**
   Validation accepts any task_order that lists the defined tasks. The compiled graph is acyclic if and
   only if the order has no repeats and every task refers only to tasks strictly before it.
   */
  lemma OrderIsAcyclicIff(wf: Workflow, taskIDs: seq<string>, execIDs: seq<string>)
    requires AgentsDefined(wf) && Enumerates(wf, taskIDs, execIDs) && AllTasks(wf, taskIDs) && ChainsDistinct(wf)
    requires Covers(wf, taskIDs)
    ensures !Cyclic(OrderLinks(wf, taskIDs, execIDs)) <==> NoDup(wf.taskOrder) && RefersBack(wf)
  {
    hide OrderLinks, ChainsDistinct, RefersTo, NoDup, RefersBack, Cyclic;
    if NoDup(wf.taskOrder) && RefersBack(wf) {
      BackwardOrderIsAcyclic(wf, taskIDs, execIDs);
    } else {
      OtherOrdersCycle(wf, taskIDs, execIDs);
    }
  }

  lemma OrderIsWired(wf: Workflow, taskIDs: seq<string>, execIDs: seq<string>)
    requires AgentsDefined(wf) && AllTasks(wf, taskIDs) && Covers(wf, taskIDs)
    ensures WireLinks(TaskWires(wf, wf.taskOrder)) <= OrderLinks(wf, taskIDs, execIDs)
    ensures WireLinks(OrderWires(wf, wf.taskOrder)) <= OrderLinks(wf, taskIDs, execIDs)
    ensures WireLinks(ReferenceWires(wf, taskIDs)) <= OrderLinks(wf, taskIDs, execIDs)
  {
    hide Chain, LineLinks, TaskNodes, OrderLinks, WireLinks, TaskWires, OrderWires, ReferenceWires;
    OrderIsALine(wf, wf.taskOrder);
    forall e
      ensures e in LineLinks(TaskNodes(wf, wf.taskOrder)) || e in WireLinks(ReferenceWires(wf, taskIDs)) ==>
                e in OrderLinks(wf, taskIDs, execIDs)
    {
      OrderLinkIs(wf, taskIDs, execIDs, e);
    }
  }

  lemma OtherOrdersCycle(wf: Workflow, taskIDs: seq<string>, execIDs: seq<string>)
    requires AgentsDefined(wf) && Enumerates(wf, taskIDs, execIDs) && AllTasks(wf, taskIDs) && Covers(wf, taskIDs)
    requires !NoDup(wf.taskOrder) || !RefersBack(wf)
    ensures Cyclic(OrderLinks(wf, taskIDs, execIDs))
  {
    var E, order := OrderLinks(wf, taskIDs, execIDs), wf.taskOrder;
    hide Chain, OrderLinks, WireLinks, TaskWires, OrderWires, ReferenceWires, RefersTo, OutputOf, StartOf;
    OrderIsWired(wf, taskIDs, execIDs);
    if !NoDup(order) {
      var i, j :| 0 <= i < j < |order| && order[i] == order[j];
      OrderLeadsOn(wf, order, E, i, j);
    } else {
      var t, u :| t in wf.tasks && u in wf.tasks && RefersTo(wf, t, u) && !Earlier(order, u, t);
      assert t in Elements(order) && u in Elements(order);
      ReferenceWireIn(wf, taskIDs, t, u);
      ForwardReferenceCycles(wf, E, t, u);
    }
  }

  /** The sequentially compiled definition has distinct IDs and closed edges and keeps the cycles of its links. */
  lemma OrderedDefinition(wf: Workflow, taskIDs: seq<string>, execIDs: seq<string>, gd: GraphDefinition)
    requires AgentsDefined(wf) && Enumerates(wf, taskIDs, execIDs) && AllTasks(wf, taskIDs)
    requires DistinctIds(wf, SequentialStrategy) && Covers(wf, taskIDs)
    requires Renders(gd, TaskNodes(wf, taskIDs), CompiledWires(wf, SequentialStrategy, taskIDs, execIDs))
    ensures NoDup(Ids(gd.nodes)) && Closed(gd)
    ensures Cyclic(Links(gd)) <==> Cyclic(OrderLinks(wf, taskIDs, execIDs))
  {
    var names, E := TaskNodes(wf, taskIDs), OrderLinks(wf, taskIDs, execIDs);
    assert ChainsDistinct(wf);
    LinksRendered(gd, names, CompiledWires(wf, SequentialStrategy, taskIDs, execIDs));
    hide Render, Chain, TaskNodes, CompiledWires, OrderLinks, IsCompiled, DistinctIds, ChainsDistinct, NoDup, Closed, Ids;
    hide Cyclic, Links;
    hide RenderLinks, RenderAll, LinksCompiled;
    TaskIdsDistinct(wf, taskIDs);
    OrderLinksNamed(wf, taskIDs, execIDs);
    EndsNamed(gd, names, E);
    RenderedCycles(wf, SequentialStrategy, E);
  }

  lemma OrderLinksNamed(wf: Workflow, taskIDs: seq<string>, execIDs: seq<string>)
    requires AgentsDefined(wf) && Enumerates(wf, taskIDs, execIDs) && AllTasks(wf, taskIDs) && Covers(wf, taskIDs)
    ensures var names, E := TaskNodes(wf, taskIDs), OrderLinks(wf, taskIDs, execIDs);
            && (forall e :: e in E ==> e.source in names && e.target in names)
            && LinksCompiled(wf, SequentialStrategy, E)
  {
    hide TaskNodes, OrderLinks, IsCompiled;
    TaskNodesCompiled(wf, taskIDs);
    forall e | e in OrderLinks(wf, taskIDs, execIDs)
      ensures e.source in TaskNodes(wf, taskIDs) && e.target in TaskNodes(wf, taskIDs)
    {
      OrderLinkEnds(wf, taskIDs, execIDs, e);
    }
  }

  lemma OrderLinkEnds(wf: Workflow, taskIDs: seq<string>, execIDs: seq<string>, e: Edge<Name>)
    requires AgentsDefined(wf) && Enumerates(wf, taskIDs, execIDs) && AllTasks(wf, taskIDs) && Covers(wf, taskIDs)
    requires e in OrderLinks(wf, taskIDs, execIDs)
    ensures e.source in TaskNodes(wf, taskIDs) && e.target in TaskNodes(wf, taskIDs)
  {
    var line := TaskNodes(wf, wf.taskOrder);
    hide Chain, OrderLinks, TaskNodes, RefersTo;
    OrderLinkIs(wf, taskIDs, execIDs, e);
    if e in LineLinks(line) {
      NodeOfOrder(wf, wf.taskOrder, taskIDs, e.source);
      NodeOfOrder(wf, wf.taskOrder, taskIDs, e.target);
    } else {
      ReferenceWiresAreReferences(wf, taskIDs, e);
      var t, u :| t in wf.tasks && u in wf.tasks && RefersTo(wf, t, u) && e == Edge(OutputOf(wf, u), StartOf(wf, t));
      assert t in Elements(taskIDs) && u in Elements(taskIDs);
      ChainStart(wf, t);
      TaskNodesContain(wf, taskIDs, t, 0);
      TaskNodesContain(wf, taskIDs, u, |Chain(wf, u)| - 1);
    }
  }

  lemma NodeOfOrder(wf: Workflow, ids: seq<string>, others: seq<string>, name: Name)
    requires AgentsDefined(wf) && AllTasks(wf, ids) && AllTasks(wf, others) && Elements(ids) == Elements(others)
    requires name in TaskNodes(wf, ids)
    ensures name in TaskNodes(wf, others)
  {
    hide Chain, TaskNodes;
    TaskNodesInUniverse(wf, ids);
    TaskNodesBelong(wf, ids, name);
    var j :| 0 <= j < |Chain(wf, name.task)| && Chain(wf, name.task)[j] == name;
    assert name.task in Elements(others);
    TaskNodesContain(wf, others, name.task, j);
  }

  /**
   Compile an accepted order, then look for cycles: silent if and only if the order has no repeats and
   every task refers only to tasks strictly before it.
   */
  method CompileOrderAndDetect(wf: Workflow, taskIDs: seq<string>, execIDs: seq<string>)
    returns (gd: GraphDefinition, cycle: Option<seq<string>>)
    requires AgentsDefined(wf) && Enumerates(wf, taskIDs, execIDs)
    requires DistinctIds(wf, SequentialStrategy) && Covers(wf, taskIDs)
    ensures cycle.None? <==> NoDup(wf.taskOrder) && RefersBack(wf)
  {
    hide RenderAll, RenderWires, TaskNodes, CompiledWires, Enumerates, NoDup, RefersBack, Ids, Render, StartOf;
    var compiled := Compile(wf, SequentialStrategy, taskIDs, execIDs);
    gd := compiled.value;
    OrderedDefinition(wf, taskIDs, execIDs, gd);
    OrderIsAcyclicIff(wf, taskIDs, execIDs);
    cycle := DetectCycle(gd);
  }
}
