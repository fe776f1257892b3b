/**
 The compiler from agent/task workflows to graph definitions, for the sequential and custom strategies.
 Each compile step appends to a draft; the specification describes the same nodes and edges by
 structured names, rendered to IDs at the end.
 */
module AgentCompiler {
  import opened Sequences
  import opened Definitions
  import opened EdgeOrders
  import opened AgentWorkflows

  /** What a compiled node stands for. */
  datatype Name =
    | ToolNode(task: string, tool: string)
    | TaskNode(task: string, agent: string)
    | GateNode(task: string, agent: string)
    | ConditionNode(dep: string, task: string)

  function Render(name: Name): string {
    match name
    case ToolNode(task, tool) => task + "__" + tool
    case TaskNode(task, agent) => task + "__" + agent
    case GateNode(task, agent) => task + "__" + agent + "__hitl"
    case ConditionNode(dep, task) => dep + "__cond__" + task
  }

  function RenderAll(names: seq<Name>): (ids: seq<string>)
    ensures |ids| == |names|
  {
    seq(|names|, i requires 0 <= i < |names| => Render(names[i]))
  }

  function PromptType(): string {
    "llm_prompt"
  }

  function GateType(): string {
    "human"
  }

  function ConditionType(): string {
    "conditional"
  }

  /** The type of a compiled node; a tool node's type is the tool itself. */
  function TypeOf(name: Name): string {
    match name
    case ToolNode(_, tool) => tool
    case TaskNode(_, _) => PromptType()
    case GateNode(_, _) => GateType()
    case ConditionNode(_, _) => ConditionType()
  }

  function RenderNode(name: Name): NodeDef {
    NodeDef(Render(name), TypeOf(name))
  }

  function RenderNodes(names: seq<Name>): (nodes: seq<NodeDef>)
    ensures |nodes| == |names|
  {
    seq(|names|, i requires 0 <= i < |names| => RenderNode(names[i]))
  }

  lemma RenderedIds(names: seq<Name>)
    ensures Ids(RenderNodes(names)) == RenderAll(names)
  {
  }

  lemma RenderNodesAppend(ns: seq<Name>, ms: seq<Name>)
    ensures RenderNodes(ns + ms) == RenderNodes(ns) + RenderNodes(ms)
  {
  }

  /** A name-level edge with its handles. */
  datatype Wire = Wire(source: Name, sourceHandle: string, target: Name, targetHandle: string)

  function RenderWire(w: Wire): EdgeDef {
    EdgeDef(Render(w.source), w.sourceHandle, Render(w.target), w.targetHandle)
  }

  function RenderWires(wires: seq<Wire>): (edges: seq<EdgeDef>)
    ensures |edges| == |wires|
  {
    seq(|wires|, i requires 0 <= i < |wires| => RenderWire(wires[i]))
  }

  lemma RenderWiresAppend(ws: seq<Wire>, vs: seq<Wire>)
    ensures RenderWires(ws + vs) == RenderWires(ws) + RenderWires(vs)
  {
  }

  // ----- specification

  ghost predicate AgentsDefined(wf: Workflow) {
    forall t :: t in wf.tasks ==> wf.tasks[t].agent in wf.agents
  }

  /** The standalone tools among the first n of an agent. */
  function StandaloneTools(wf: Workflow, tools: seq<string>): seq<string> {
    if tools == [] then []
    else
      StandaloneTools(wf, tools[..|tools| - 1])
      + if wf.toolMode(tools[|tools| - 1]).Standalone? then [tools[|tools| - 1]] else []
  }

  function ToolNames(task: string, tools: seq<string>): (names: seq<Name>)
    ensures |names| == |tools|
  {
    seq(|tools|, i requires 0 <= i < |tools| => ToolNode(task, tools[i]))
  }

  function ToolsOf(wf: Workflow, t: string): seq<string>
    requires t in wf.tasks && wf.tasks[t].agent in wf.agents
  {
    StandaloneTools(wf, wf.agents[wf.tasks[t].agent].tools)
  }

  /** A task's nodes in execution order: standalone tools, the task itself, the human gate if any. */
  function Chain(wf: Workflow, t: string): (names: seq<Name>)
    requires t in wf.tasks && wf.tasks[t].agent in wf.agents
    ensures |names| > 0
  {
    ToolNames(t, ToolsOf(wf, t)) + [TaskNode(t, wf.tasks[t].agent)]
    + if wf.tasks[t].humanReview then [GateNode(t, wf.tasks[t].agent)] else []
  }

  function StartOf(wf: Workflow, t: string): Name
    requires t in wf.tasks && wf.tasks[t].agent in wf.agents
  {
    Chain(wf, t)[0]
  }

  function OutputOf(wf: Workflow, t: string): Name
    requires t in wf.tasks && wf.tasks[t].agent in wf.agents
  {
    var chain := Chain(wf, t);
    chain[|chain| - 1]
  }

  function OutputHandle(): string {
    "output"
  }

  function InputHandle(): string {
    "input"
  }

  function ContextHandle(): string {
    "context"
  }

  function LinkHandle(target: Name): string {
    if target.TaskNode? then ContextHandle() else InputHandle()
  }

  /** Consecutive names, wired from output to input; the task itself takes its tools' output as context. */
  function ChainWires(names: seq<Name>): seq<Wire> {
    if |names| <= 1 then []
    else
      var last := |names| - 1;
      ChainWires(names[..last]) + [Wire(names[last - 1], OutputHandle(), names[last], LinkHandle(names[last]))]
  }

  function TaskNodes(wf: Workflow, ids: seq<string>): seq<Name>
    requires AgentsDefined(wf) && forall i :: 0 <= i < |ids| ==> ids[i] in wf.tasks
  {
    if ids == [] then [] else TaskNodes(wf, ids[..|ids| - 1]) + Chain(wf, ids[|ids| - 1])
  }

  function TaskWires(wf: Workflow, ids: seq<string>): seq<Wire>
    requires AgentsDefined(wf) && forall i :: 0 <= i < |ids| ==> ids[i] in wf.tasks
  {
    if ids == [] then [] else TaskWires(wf, ids[..|ids| - 1]) + ChainWires(Chain(wf, ids[|ids| - 1]))
  }

  /** Wires from the defined tasks among `refs` to the start of t. */
  function RefWires(wf: Workflow, t: string, refs: seq<string>, handle: string): seq<Wire>
    requires AgentsDefined(wf) && t in wf.tasks
  {
    if refs == [] then []
    else
      RefWires(wf, t, refs[..|refs| - 1], handle)
      + if refs[|refs| - 1] in wf.tasks
        then [Wire(OutputOf(wf, refs[|refs| - 1]), OutputHandle(), StartOf(wf, t), handle)] else []
  }

  function InputWires(wf: Workflow, t: string, inputs: seq<Input>): seq<Wire>
    requires AgentsDefined(wf) && t in wf.tasks
  {
    if inputs == [] then []
    else
      InputWires(wf, t, inputs[..|inputs| - 1])
      + RefWires(wf, t, inputs[|inputs| - 1].refs, inputs[|inputs| - 1].param)
  }

  function ReferenceWires(wf: Workflow, ids: seq<string>): seq<Wire>
    requires AgentsDefined(wf) && forall i :: 0 <= i < |ids| ==> ids[i] in wf.tasks
  {
    if ids == [] then []
    else
      var t := ids[|ids| - 1];
      ReferenceWires(wf, ids[..|ids| - 1])
      + (InputWires(wf, t, wf.tasks[t].inputs) + RefWires(wf, t, wf.tasks[t].context, ContextHandle()))
  }

  // ----- the draft

  /** The definition under construction, with each task's first and last node. */
  class Draft {
    var nodes: seq<NodeDef>
    var edges: seq<EdgeDef>
    var entry: string
    var starts: map<string, string>
    var outputs: map<string, string>

    constructor ()
      ensures nodes == [] && edges == [] && entry == "" && starts == map[] && outputs == map[]
    {
      nodes, edges, entry, starts, outputs := [], [], "", map[], map[];
    }

    method AppendNode(id: string, nodeType: string)
      modifies this`nodes
      ensures nodes == old(nodes) + [NodeDef(id, nodeType)]
    {
      nodes := nodes + [NodeDef(id, nodeType)];
    }

    method AppendEdge(source: string, sourceHandle: string, target: string, targetHandle: string)
      modifies this`edges
      ensures edges == old(edges) + [EdgeDef(source, sourceHandle, target, targetHandle)]
    {
      edges := edges + [EdgeDef(source, sourceHandle, target, targetHandle)];
    }
  }

  lemma ChainWiresExtend(names: seq<Name>, name: Name)
    requires names != []
    ensures ChainWires(names + [name])
         == ChainWires(names) + [Wire(names[|names| - 1], OutputHandle(), name, LinkHandle(name))]
  {
    hide LinkHandle, OutputHandle;
    TakeOfAppend(names, name, 0);
  }

  lemma ToolNamesExtend(task: string, tools: seq<string>, tool: string)
    ensures ToolNames(task, tools + [tool]) == ToolNames(task, tools) + [ToolNode(task, tool)]
  {
  }

  /** Rendering a chain that grows by one name. */
  lemma RenderChainExtend(names: seq<Name>, name: Name)
    ensures RenderNodes(names + [name]) == RenderNodes(names) + [RenderNode(name)]
    ensures RenderWires(ChainWires(names + [name]))
         == RenderWires(ChainWires(names))
            + if names == [] then []
              else [EdgeDef(Render(names[|names| - 1]), OutputHandle(), Render(name), LinkHandle(name))]
  {
    hide Render, LinkHandle, OutputHandle;
    RenderNodesAppend(names, [name]);
    assert RenderNodes([name]) == [RenderNode(name)];
    if names != [] {
      ChainWiresExtend(names, name);
      var w := Wire(names[|names| - 1], OutputHandle(), name, LinkHandle(name));
      RenderWiresAppend(ChainWires(names), [w]);
      assert RenderWires([w]) == [RenderWire(w)];
    }
  }

  /** The first and last ID of a chain so far; both empty while there is none. */
  ghost predicate Spans(names: seq<Name>, first: string, last: string) {
    if names == [] then first == "" && last == ""
    else first == Render(names[0]) && first != "" && last == Render(names[|names| - 1]) && last != ""
  }

  /** One standalone tool at the end of the chain. */
  method AppendTool(draft: Draft, t: string, tool: string, first: string, last: string, ghost names: seq<Name>)
    returns (first': string, last': string)
    requires Spans(names, first, last)
    modifies draft
    ensures draft.nodes == old(draft.nodes) + [RenderNode(ToolNode(t, tool))]
    ensures draft.edges == old(draft.edges)
              + if names == [] then [] else [EdgeDef(last, OutputHandle(), Render(ToolNode(t, tool)), InputHandle())]
    ensures draft.entry == old(draft.entry) && draft.outputs == old(draft.outputs)
    ensures Spans(names + [ToolNode(t, tool)], first', last') && draft.starts == old(draft.starts)[t := first']
    ensures names != [] ==> first' == first
  {
    hide Render, OutputHandle, InputHandle;
    var id := ToolId(t, tool);
    draft.AppendNode(id, tool);
    first' := if first == "" then id else first;
    if last != "" {
      draft.AppendEdge(last, OutputHandle(), id, InputHandle());
    }
    last' := id;
    draft.starts := draft.starts[t := first'];
  }

  /** Standalone tools become a chain of nodes; returns the last of them, or "". */
  method CompileTaskTools(wf: Workflow, draft: Draft, t: string, tools: seq<string>) returns (last: string)
    requires t in draft.starts
    modifies draft
    ensures draft.nodes == old(draft.nodes) + RenderNodes(ToolNames(t, StandaloneTools(wf, tools)))
    ensures draft.edges == old(draft.edges) + RenderWires(ChainWires(ToolNames(t, StandaloneTools(wf, tools))))
    ensures draft.entry == old(draft.entry) && draft.outputs == old(draft.outputs)
    ensures var names := ToolNames(t, StandaloneTools(wf, tools));
            if names == [] then last == "" && draft.starts == old(draft.starts)
            else last == Render(names[|names| - 1]) && last != "" && draft.starts == old(draft.starts)[t := Render(names[0])]
  {
    hide Render, RenderNode, RenderNodes, RenderWires, ChainWires, ToolNames, StandaloneTools;
    hide OutputHandle, InputHandle, ContextHandle;
    NoTools(wf, t);
    var first := "";
    last := "";
    ghost var names: seq<Name> := [];
    var i := 0;
    while i < |tools|
      invariant 0 <= i <= |tools|
      invariant names == ToolNames(t, StandaloneTools(wf, tools[..i]))
      invariant draft.nodes == old(draft.nodes) + RenderNodes(names)
      invariant draft.edges == old(draft.edges) + RenderWires(ChainWires(names))
      invariant draft.entry == old(draft.entry) && draft.outputs == old(draft.outputs)
      invariant Spans(names, first, last)
      invariant draft.starts == if names == [] then old(draft.starts) else old(draft.starts)[t := first]
    {
      StandaloneStep(wf, tools, i);
      if wf.toolMode(tools[i]).Standalone? {
        ToolNamesExtend(t, StandaloneTools(wf, tools[..i]), tools[i]);
        RenderChainExtend(names, ToolNode(t, tools[i]));
        first, last := AppendTool(draft, t, tools[i], first, last, names);
        names := names + [ToolNode(t, tools[i])];
      }
      i := i + 1;
    }
    assert tools[..i] == tools;
  }

  lemma NoTools(wf: Workflow, t: string)
    ensures ToolNames(t, StandaloneTools(wf, [])) == [] && RenderNodes([]) == [] && RenderWires(ChainWires([])) == []
  {
  }

  function ToolId(t: string, tool: string): (id: string)
    ensures RenderNode(ToolNode(t, tool)) == NodeDef(id, tool) && id == Render(ToolNode(t, tool)) && id != ""
  {
    t + "__" + tool
  }

  lemma StandaloneStep(wf: Workflow, tools: seq<string>, i: nat)
    requires i < |tools|
    ensures StandaloneTools(wf, tools[..i + 1])
         == if wf.toolMode(tools[i]).Standalone? then StandaloneTools(wf, tools[..i]) + [tools[i]]
            else StandaloneTools(wf, tools[..i])
  {
    assert tools[..i + 1][..i] == tools[..i];
  }

  function TaskId(t: string, agent: string): (id: string)
    ensures id == Render(TaskNode(t, agent)) && id != ""
  {
    t + "__" + agent
  }

  function GateId(t: string, agent: string): (id: string)
    ensures id == Render(GateNode(t, agent)) && id != ""
  {
    TaskId(t, agent) + "__hitl"
  }

  function ConditionId(dep: string, t: string): (id: string)
    ensures id == Render(ConditionNode(dep, t)) && id != ""
  {
    dep + "__cond__" + t
  }

  /** One task with its agent: tools, the task node, and a human gate if reviewed. */
  method CompileTaskNode(wf: Workflow, draft: Draft, t: string)
    requires t in wf.tasks && wf.tasks[t].agent in wf.agents
    modifies draft
    ensures draft.nodes == old(draft.nodes) + RenderNodes(Chain(wf, t))
    ensures draft.edges == old(draft.edges) + RenderWires(ChainWires(Chain(wf, t)))
    ensures draft.entry == old(draft.entry)
    ensures draft.starts == old(draft.starts)[t := Render(StartOf(wf, t))]
    ensures draft.outputs == old(draft.outputs)[t := Render(OutputOf(wf, t))]
  {
    ChainRendered(wf, t);
    hide Render, RenderNodes, RenderWires, ChainWires, ToolNames, Ids, Chain, GateNodes, GateEdges, GateId, TaskId, LinkEdges;
    ghost var tools := ToolNames(t, ToolsOf(wf, t));
    Associate(draft.nodes, RenderNodes(tools), [NodeDef(TaskId(t, wf.tasks[t].agent), PromptType())], GateNodes(wf, t));
    Associate(draft.edges, RenderWires(ChainWires(tools)), LinkEdges(wf, t), GateEdges(wf, t));
    CompileTaskBody(wf, draft, t);
    AppendHumanReview(wf, draft, t, TaskId(t, wf.tasks[t].agent));
  }

  /** The edge from the last standalone tool into the task, if there are tools. */
  function LinkEdges(wf: Workflow, t: string): seq<EdgeDef>
    requires t in wf.tasks && wf.tasks[t].agent in wf.agents
  {
    var tools := ToolNames(t, ToolsOf(wf, t));
    if tools == [] then []
    else [EdgeDef(Render(tools[|tools| - 1]), OutputHandle(), TaskId(t, wf.tasks[t].agent), ContextHandle())]
  }

  /** Tools and task node. */
  method CompileTaskBody(wf: Workflow, draft: Draft, t: string)
    requires t in wf.tasks && wf.tasks[t].agent in wf.agents
    modifies draft
    ensures var names, id := ToolNames(t, ToolsOf(wf, t)), TaskId(t, wf.tasks[t].agent);
            && draft.nodes == old(draft.nodes) + RenderNodes(names) + [NodeDef(id, PromptType())]
            && draft.edges == old(draft.edges) + RenderWires(ChainWires(names)) + LinkEdges(wf, t)
            && draft.entry == old(draft.entry)
            && draft.starts == old(draft.starts)[t := if names == [] then id else Render(names[0])]
            && draft.outputs == old(draft.outputs)[t := id]
  {
    hide Render, RenderNodes, RenderWires, ChainWires, ToolNames, StandaloneTools, Ids;
    hide OutputHandle, InputHandle, ContextHandle, TaskId;
    var id := TaskId(t, wf.tasks[t].agent);
    draft.starts := draft.starts[t := id];
    draft.outputs := draft.outputs[t := id];
    var last := CompileTaskTools(wf, draft, t, wf.agents[wf.tasks[t].agent].tools);
    if last != "" {
      draft.AppendEdge(last, OutputHandle(), id, ContextHandle());
    }
    draft.AppendNode(id, PromptType());
  }

  /** The human gate behind a reviewed task, which becomes the task's output. */
  method AppendHumanReview(wf: Workflow, draft: Draft, t: string, id: string)
    requires t in wf.tasks && id == TaskId(t, wf.tasks[t].agent)
    modifies draft
    ensures draft.nodes == old(draft.nodes) + GateNodes(wf, t)
    ensures draft.edges == old(draft.edges) + GateEdges(wf, t)
    ensures draft.entry == old(draft.entry) && draft.starts == old(draft.starts)
    ensures draft.outputs == if wf.tasks[t].humanReview then old(draft.outputs)[t := GateId(t, wf.tasks[t].agent)]
                             else old(draft.outputs)
  {
    hide OutputHandle, InputHandle, Ids, TaskId, GateId;
    if !wf.tasks[t].humanReview {
      return;
    }
    var gate := GateId(t, wf.tasks[t].agent);
    draft.AppendNode(gate, GateType());
    draft.AppendEdge(id, OutputHandle(), gate, InputHandle());
    draft.outputs := draft.outputs[t := gate];
  }

  function GateNodes(wf: Workflow, t: string): seq<NodeDef>
    requires t in wf.tasks
  {
    if wf.tasks[t].humanReview then [NodeDef(GateId(t, wf.tasks[t].agent), GateType())] else []
  }

  function GateEdges(wf: Workflow, t: string): seq<EdgeDef>
    requires t in wf.tasks
  {
    if !wf.tasks[t].humanReview then []
    else [EdgeDef(TaskId(t, wf.tasks[t].agent), OutputHandle(), GateId(t, wf.tasks[t].agent), InputHandle())]
  }

  /** A rendered chain, part by part. */
  lemma ChainRendered(wf: Workflow, t: string)
    requires t in wf.tasks && wf.tasks[t].agent in wf.agents
    ensures var tools, id := ToolNames(t, ToolsOf(wf, t)), TaskId(t, wf.tasks[t].agent);
            && RenderNodes(Chain(wf, t)) == RenderNodes(tools) + [NodeDef(id, PromptType())] + GateNodes(wf, t)
            && RenderWires(ChainWires(Chain(wf, t)))
               == RenderWires(ChainWires(tools)) + LinkEdges(wf, t) + GateEdges(wf, t)
            && Render(StartOf(wf, t)) == (if tools == [] then id else Render(tools[0]))
            && Render(OutputOf(wf, t)) == (if wf.tasks[t].humanReview then GateId(t, wf.tasks[t].agent) else id)
  {
    var tools, agent := ToolNames(t, ToolsOf(wf, t)), wf.tasks[t].agent;
    hide Render, RenderNodes, RenderWires, ChainWires, ToolNames, ToolsOf, OutputHandle, InputHandle, ContextHandle;
    RenderChainExtend(tools, TaskNode(t, agent));
    RenderChainExtend(tools + [TaskNode(t, agent)], GateNode(t, agent));
    assert tools + [TaskNode(t, agent)] + [] == tools + [TaskNode(t, agent)];
  }

  /** The first and last node recorded for each task. */
  ghost predicate MapsMatch(wf: Workflow, ids: set<string>, starts: map<string, string>, outputs: map<string, string>)
    requires AgentsDefined(wf)
  {
    && ids <= wf.tasks.Keys
    && starts.Keys == ids && outputs.Keys == ids
    && (forall t :: t in ids ==> starts[t] == Render(StartOf(wf, t)) && outputs[t] == Render(OutputOf(wf, t)))
  }

  datatype CompileError = UndefinedAgent(task: string) | MissingTaskOrder | UnknownTask(task: string)

  /** All tasks in the given order; fails on the first task whose agent is undefined. */
  method CompileTaskNodes(wf: Workflow, draft: Draft, ids: seq<string>) returns (err: Option<CompileError>)
    requires Elements(ids) == wf.tasks.Keys
    requires draft.nodes == [] && draft.edges == [] && draft.starts == map[] && draft.outputs == map[]
    modifies draft
    ensures err.None? <==> AgentsDefined(wf)
    ensures err.None? ==> draft.nodes == RenderNodes(TaskNodes(wf, ids))
    ensures err.None? ==> draft.edges == RenderWires(TaskWires(wf, ids))
    ensures err.None? ==> draft.entry == old(draft.entry)
    ensures err.None? ==> MapsMatch(wf, wf.tasks.Keys, draft.starts, draft.outputs)
  {
    hide Render, RenderNodes, RenderWires, ChainWires, Chain, Ids, MapsMatch, StartOf, OutputOf;
    NothingYet(wf);
    NoTasksMatch(wf);
    assert ids[..0] == [];
    var i := 0;
    while i < |ids|
      invariant 0 <= i <= |ids|
      invariant forall k :: 0 <= k < i ==> wf.tasks[ids[k]].agent in wf.agents
      invariant AgentsDefined(wf) ==> draft.nodes == RenderNodes(TaskNodes(wf, ids[..i]))
      invariant AgentsDefined(wf) ==> draft.edges == RenderWires(TaskWires(wf, ids[..i]))
      invariant AgentsDefined(wf) ==> MapsMatch(wf, Elements(ids[..i]), draft.starts, draft.outputs)
      invariant draft.entry == old(draft.entry)
    {
      assert ids[i] in Elements(ids);
      if wf.tasks[ids[i]].agent !in wf.agents {
        return Some(UndefinedAgent(ids[i]));
      }
      if AgentsDefined(wf) {
        NextTask(wf, ids, i);
        MapsMatchNext(wf, Elements(ids[..i]), draft.starts, draft.outputs, ids[i]);
      }
      CompileTaskNode(wf, draft, ids[i]);
      i := i + 1;
    }
    assert ids[..i] == ids;
    assert AgentsDefined(wf) by {
      forall t | t in wf.tasks
        ensures wf.tasks[t].agent in wf.agents
      {
        assert t in Elements(ids);
      }
    }
    err := None;
  }

  lemma NoTasksMatch(wf: Workflow)
    ensures AgentsDefined(wf) ==> MapsMatch(wf, Elements([]), map[], map[])
  {
  }

  lemma MapsMatchNext(wf: Workflow, ids: set<string>, starts: map<string, string>, outputs: map<string, string>, t: string)
    requires AgentsDefined(wf) && MapsMatch(wf, ids, starts, outputs) && t in wf.tasks
    ensures MapsMatch(wf, ids + {t}, starts[t := Render(StartOf(wf, t))], outputs[t := Render(OutputOf(wf, t))])
  {
    hide Render, StartOf, OutputOf;
  }

  lemma NothingYet(wf: Workflow)
    ensures RenderNodes([]) == [] && RenderWires([]) == []
  {
  }

  lemma NextTask(wf: Workflow, ids: seq<string>, i: nat)
    requires AgentsDefined(wf) && i < |ids| && forall k :: 0 <= k < |ids| ==> ids[k] in wf.tasks
    ensures RenderNodes(TaskNodes(wf, ids[..i + 1])) == RenderNodes(TaskNodes(wf, ids[..i])) + RenderNodes(Chain(wf, ids[i]))
    ensures RenderWires(TaskWires(wf, ids[..i + 1]))
         == RenderWires(TaskWires(wf, ids[..i])) + RenderWires(ChainWires(Chain(wf, ids[i])))
    ensures Elements(ids[..i + 1]) == Elements(ids[..i]) + {ids[i]}
  {
    hide Render, Chain, RenderNodes, RenderWires;
    assert ids[..i + 1][..i] == ids[..i];
    TakeNext(ids, i);
    RenderNodesAppend(TaskNodes(wf, ids[..i]), Chain(wf, ids[i]));
    RenderWiresAppend(TaskWires(wf, ids[..i]), ChainWires(Chain(wf, ids[i])));
  }

  /** Edges from the defined tasks among `refs` into t. */
  method WireRefs(wf: Workflow, draft: Draft, t: string, refs: seq<string>, handle: string)
    requires AgentsDefined(wf) && t in wf.tasks
    requires MapsMatch(wf, wf.tasks.Keys, draft.starts, draft.outputs)
    modifies draft`edges
    ensures draft.edges == old(draft.edges) + RenderWires(RefWires(wf, t, refs, handle))
  {
    hide Render, RenderWires, Chain, OutputHandle;
    NothingYet(wf);
    var i := 0;
    while i < |refs|
      invariant 0 <= i <= |refs|
      invariant draft.edges == old(draft.edges) + RenderWires(RefWires(wf, t, refs[..i], handle))
    {
      NextRef(wf, t, refs, handle, i);
      if refs[i] in draft.outputs {
        draft.AppendEdge(draft.outputs[refs[i]], OutputHandle(), draft.starts[t], handle);
      }
      i := i + 1;
    }
    assert refs[..i] == refs;
  }

  lemma NextRef(wf: Workflow, t: string, refs: seq<string>, handle: string, i: nat)
    requires AgentsDefined(wf) && t in wf.tasks && i < |refs|
    ensures RenderWires(RefWires(wf, t, refs[..i + 1], handle))
         == if refs[i] in wf.tasks
            then RenderWires(RefWires(wf, t, refs[..i], handle))
                 + [EdgeDef(Render(OutputOf(wf, refs[i])), OutputHandle(), Render(StartOf(wf, t)), handle)]
            else RenderWires(RefWires(wf, t, refs[..i], handle))
  {
    hide Render, Chain, OutputHandle;
    assert refs[..i + 1][..i] == refs[..i];
    if refs[i] in wf.tasks {
      var w := Wire(OutputOf(wf, refs[i]), OutputHandle(), StartOf(wf, t), handle);
      RenderWiresAppend(RefWires(wf, t, refs[..i], handle), [w]);
      assert RenderWires([w]) == [RenderWire(w)];
    } else {
      assert RefWires(wf, t, refs[..i], handle) + [] == RefWires(wf, t, refs[..i], handle);
    }
  }

  method WireInputs(wf: Workflow, draft: Draft, t: string, inputs: seq<Input>)
    requires AgentsDefined(wf) && t in wf.tasks
    requires MapsMatch(wf, wf.tasks.Keys, draft.starts, draft.outputs)
    modifies draft`edges
    ensures draft.edges == old(draft.edges) + RenderWires(InputWires(wf, t, inputs))
  {
    hide Render, RenderWires, Chain, RefWires, MapsMatch;
    NothingYet(wf);
    var i := 0;
    while i < |inputs|
      invariant 0 <= i <= |inputs|
      invariant draft.edges == old(draft.edges) + RenderWires(InputWires(wf, t, inputs[..i]))
    {
      assert inputs[..i + 1][..i] == inputs[..i];
      RenderWiresAppend(InputWires(wf, t, inputs[..i]), RefWires(wf, t, inputs[i].refs, inputs[i].param));
      WireRefs(wf, draft, t, inputs[i].refs, inputs[i].param);
      i := i + 1;
    }
    assert inputs[..i] == inputs;
  }

  /** Input and context references become edges. */
  method WireTaskReferenceEdges(wf: Workflow, draft: Draft, ids: seq<string>)
    requires AgentsDefined(wf) && forall i :: 0 <= i < |ids| ==> ids[i] in wf.tasks
    requires MapsMatch(wf, wf.tasks.Keys, draft.starts, draft.outputs)
    modifies draft`edges
    ensures draft.edges == old(draft.edges) + RenderWires(ReferenceWires(wf, ids))
  {
    hide Render, RenderWires, Chain, RefWires, MapsMatch, InputWires, ContextHandle;
    NothingYet(wf);
    var i := 0;
    while i < |ids|
      invariant 0 <= i <= |ids|
      invariant draft.edges == old(draft.edges) + RenderWires(ReferenceWires(wf, ids[..i]))
    {
      var t := ids[i];
      assert ids[..i + 1][..i] == ids[..i];
      ghost var inputs, context := InputWires(wf, t, wf.tasks[t].inputs), RefWires(wf, t, wf.tasks[t].context, ContextHandle());
      RenderWiresAppend(inputs, context);
      RenderWiresAppend(ReferenceWires(wf, ids[..i]), inputs + context);
      WireInputs(wf, draft, t, wf.tasks[t].inputs);
      WireRefs(wf, draft, t, wf.tasks[t].context, ContextHandle());
      i := i + 1;
    }
    assert ids[..i] == ids;
  }

  // ----- sequential strategy

  /** Each task's output feeds the start of the next. */
  function OrderWires(wf: Workflow, order: seq<string>): seq<Wire>
    requires AgentsDefined(wf) && AllTasks(wf, order)
  {
    if |order| <= 1 then []
    else
      var last := |order| - 1;
      OrderWires(wf, order[..last])
      + [Wire(OutputOf(wf, order[last - 1]), OutputHandle(), StartOf(wf, order[last]), InputHandle())]
  }

  lemma NextInOrder(wf: Workflow, order: seq<string>, i: nat)
    requires AgentsDefined(wf) && 0 < i < |order| && AllTasks(wf, order[..i + 1])
    ensures AllTasks(wf, order[..i]) && order[i - 1] in wf.tasks && order[i] in wf.tasks
    ensures RenderWires(OrderWires(wf, order[..i + 1]))
         == RenderWires(OrderWires(wf, order[..i]))
            + [EdgeDef(Render(OutputOf(wf, order[i - 1])), OutputHandle(), Render(StartOf(wf, order[i])), InputHandle())]
  {
    hide Render, Chain, OutputHandle, InputHandle;
    assert order[..i + 1][..i] == order[..i];
    assert order[..i + 1][i] == order[i] && order[..i + 1][i - 1] == order[i - 1];
    var w := Wire(OutputOf(wf, order[i - 1]), OutputHandle(), StartOf(wf, order[i]), InputHandle());
    RenderWiresAppend(OrderWires(wf, order[..i]), [w]);
    assert RenderWires([w]) == [RenderWire(w)];
  }

  ghost predicate AllTasks(wf: Workflow, ids: seq<string>) {
    forall i :: 0 <= i < |ids| ==> ids[i] in wf.tasks
  }

  /** Chains the tasks in task_order; an unknown task is noticed only when the order has several. */
  method CompileSequential(wf: Workflow, draft: Draft) returns (err: Option<CompileError>)
    requires AgentsDefined(wf) && MapsMatch(wf, wf.tasks.Keys, draft.starts, draft.outputs)
    modifies draft`edges, draft`entry
    ensures err.None? <==> wf.taskOrder != [] && (|wf.taskOrder| == 1 || AllTasks(wf, wf.taskOrder))
    ensures err.None? && AllTasks(wf, wf.taskOrder) ==>
              && draft.edges == old(draft.edges) + RenderWires(OrderWires(wf, wf.taskOrder))
              && draft.entry == Render(StartOf(wf, wf.taskOrder[0]))
    ensures err.None? && !AllTasks(wf, wf.taskOrder) ==> draft.edges == old(draft.edges) && draft.entry == ""
  {
    hide Render, RenderWires, Chain, OutputHandle, InputHandle, OutputOf, StartOf, OrderWires;
    if |wf.taskOrder| == 0 {
      return Some(MissingTaskOrder);
    }
    draft.entry := if wf.taskOrder[0] in draft.starts then draft.starts[wf.taskOrder[0]] else "";
    err := ChainOrder(wf, draft, wf.taskOrder);
  }

  lemma TasksSoFar(wf: Workflow, order: seq<string>, i: nat)
    requires 0 < i < |order| && order[i - 1] in wf.tasks && order[i] in wf.tasks
    requires i > 1 ==> AllTasks(wf, order[..i])
    ensures AllTasks(wf, order[..i]) && AllTasks(wf, order[..i + 1])
  {
  }

  lemma UnknownShows(wf: Workflow, order: seq<string>, i: nat)
    requires i < |order| && order[i] !in wf.tasks
    ensures !AllTasks(wf, order)
  {
  }

  lemma OneTaskHasNoWires(wf: Workflow, order: seq<string>)
    requires AgentsDefined(wf) && order != []
    ensures AllTasks(wf, order[..1]) ==> RenderWires(OrderWires(wf, order[..1])) == []
  {
  }

  /** The edges between consecutive tasks. */
  method ChainOrder(wf: Workflow, draft: Draft, order: seq<string>) returns (err: Option<CompileError>)
    requires AgentsDefined(wf) && MapsMatch(wf, wf.tasks.Keys, draft.starts, draft.outputs) && order != []
    modifies draft`edges
    ensures err.None? <==> |order| == 1 || AllTasks(wf, order)
    ensures err.None? && AllTasks(wf, order) ==> draft.edges == old(draft.edges) + RenderWires(OrderWires(wf, order))
    ensures |order| == 1 ==> draft.edges == old(draft.edges)
  {
    hide Render, RenderWires, Chain, OutputHandle, InputHandle, OutputOf, StartOf, OrderWires, AllTasks;
    OneTaskHasNoWires(wf, order);
    var i := 1;
    while i < |order|
      invariant 1 <= i <= |order|
      invariant i > 1 ==> AllTasks(wf, order[..i])
      invariant i == 1 ==> draft.edges == old(draft.edges)
      invariant AllTasks(wf, order[..i]) ==> draft.edges == old(draft.edges) + RenderWires(OrderWires(wf, order[..i]))
    {
      if order[i - 1] !in draft.outputs {
        UnknownShows(wf, order, i - 1);
        return Some(UnknownTask(order[i - 1]));
      }
      if order[i] !in draft.starts {
        UnknownShows(wf, order, i);
        return Some(UnknownTask(order[i]));
      }
      TasksSoFar(wf, order, i);
      NextInOrder(wf, order, i);
      draft.AppendEdge(draft.outputs[order[i - 1]], OutputHandle(), draft.starts[order[i]], InputHandle());
      i := i + 1;
    }
    assert order[..i] == order;
    err := None;
  }

  // ----- custom strategy

  /** A dependency through a condition node. */
  function ConditionWires(wf: Workflow, dep: string, t: string): seq<Wire>
    requires AgentsDefined(wf) && dep in wf.tasks && t in wf.tasks
  {
    [Wire(OutputOf(wf, dep), OutputHandle(), ConditionNode(dep, t), InputHandle()),
     Wire(ConditionNode(dep, t), Render(StartOf(wf, t)), StartOf(wf, t), InputHandle())]
  }

  function ConditionalWires(wf: Workflow, t: string, deps: seq<string>): seq<Wire>
    requires AgentsDefined(wf) && t in wf.tasks
  {
    if deps == [] then []
    else
      ConditionalWires(wf, t, deps[..|deps| - 1])
      + if deps[|deps| - 1] in wf.tasks then ConditionWires(wf, deps[|deps| - 1], t) else []
  }

  function DependencyWires(wf: Workflow, t: string, d: Dependencies): seq<Wire>
    requires AgentsDefined(wf) && t in wf.tasks
  {
    if d.condition != "" then ConditionalWires(wf, t, d.dependsOn) else RefWires(wf, t, d.dependsOn, InputHandle())
  }

  function CustomWires(wf: Workflow, execution: map<string, Dependencies>, ids: seq<string>): seq<Wire>
    requires AgentsDefined(wf) && forall i :: 0 <= i < |ids| ==> ids[i] in execution
  {
    if ids == [] then []
    else
      var t := ids[|ids| - 1];
      CustomWires(wf, execution, ids[..|ids| - 1])
      + if t in wf.tasks then DependencyWires(wf, t, execution[t]) else []
  }

  /** A condition node is added once. */
  function WithName(names: seq<Name>, name: Name): seq<Name> {
    if name in names then names else names + [name]
  }

  function WithConditions(wf: Workflow, names: seq<Name>, t: string, deps: seq<string>): seq<Name> {
    if deps == [] then names
    else
      var before := WithConditions(wf, names, t, deps[..|deps| - 1]);
      if deps[|deps| - 1] in wf.tasks then WithName(before, ConditionNode(deps[|deps| - 1], t)) else before
  }

  function CustomNodes(wf: Workflow, execution: map<string, Dependencies>, names: seq<Name>, ids: seq<string>): seq<Name>
    requires forall i :: 0 <= i < |ids| ==> ids[i] in execution
  {
    if ids == [] then names
    else
      var t := ids[|ids| - 1];
      var before := CustomNodes(wf, execution, names, ids[..|ids| - 1]);
      if t in wf.tasks && execution[t].condition != ""
      then WithConditions(wf, before, t, execution[t].dependsOn) else before
  }

  /** The draft's view of the same: a condition node is added unless its ID is taken, by whatever node. */
  function WithNode(nodes: seq<NodeDef>, node: NodeDef): seq<NodeDef> {
    if node.id in Ids(nodes) then nodes else nodes + [node]
  }

  function WithConditionNodes(wf: Workflow, nodes: seq<NodeDef>, t: string, deps: seq<string>): seq<NodeDef> {
    if deps == [] then nodes
    else
      var before := WithConditionNodes(wf, nodes, t, deps[..|deps| - 1]);
      if deps[|deps| - 1] in wf.tasks then WithNode(before, RenderNode(ConditionNode(deps[|deps| - 1], t))) else before
  }

  function WithCustomNodes(wf: Workflow, execution: map<string, Dependencies>, nodes: seq<NodeDef>, ids: seq<string>)
    : seq<NodeDef>
    requires forall i :: 0 <= i < |ids| ==> ids[i] in execution
  {
    if ids == [] then nodes
    else
      var t := ids[|ids| - 1];
      var before := WithCustomNodes(wf, execution, nodes, ids[..|ids| - 1]);
      if t in wf.tasks && execution[t].condition != ""
      then WithConditionNodes(wf, before, t, execution[t].dependsOn) else before
  }

  /** v's declared dependencies carry a condition, and u is one of them. */
  ghost predicate IsGuarded(wf: Workflow, u: string, v: string) {
    && wf.execution.Some? && v in wf.execution.value
    && wf.execution.value[v].condition != "" && u in wf.execution.value[v].dependsOn
  }

  /** The names a workflow gives rise to: the nodes of its tasks and its guarded dependencies. */
  ghost predicate InUniverse(wf: Workflow, name: Name)
    requires AgentsDefined(wf)
  {
    if name.ConditionNode? then name.dep in wf.tasks && name.task in wf.tasks && IsGuarded(wf, name.dep, name.task)
    else name.task in wf.tasks && name in Chain(wf, name.task)
  }

  /** Only the custom strategy compiles condition nodes. */
  ghost predicate IsCompiled(wf: Workflow, strategy: Strategy, name: Name)
    requires AgentsDefined(wf)
  {
    InUniverse(wf, name) && (name.ConditionNode? ==> strategy.CustomStrategy?)
  }

  /** Different compiled names never render to the same ID, and no task lists a standalone tool twice. */
  ghost predicate DistinctIds(wf: Workflow, strategy: Strategy)
    requires AgentsDefined(wf)
  {
    && (forall m, n :: IsCompiled(wf, strategy, m) && IsCompiled(wf, strategy, n) && Render(m) == Render(n) ==> m == n)
    && (forall t :: t in wf.tasks ==> NoDup(Chain(wf, t)))
  }

  ghost predicate AllInUniverse(wf: Workflow, names: seq<Name>)
    requires AgentsDefined(wf)
  {
    forall i :: 0 <= i < |names| ==> InUniverse(wf, names[i])
  }

  /** Looking an ID up among the rendered names is looking the name up. */
  lemma RenderedMembership(wf: Workflow, names: seq<Name>, name: Name)
    requires AgentsDefined(wf) && DistinctIds(wf, CustomStrategy) && AllInUniverse(wf, names) && InUniverse(wf, name)
    ensures Render(name) in RenderAll(names) <==> name in names
  {
    hide Render, InUniverse;
    if name in names {
      var i :| 0 <= i < |names| && names[i] == name;
      assert RenderAll(names)[i] == Render(name);
    }
  }

  lemma WithNameRendered(names: seq<Name>, name: Name)
    ensures RenderNodes(WithName(names, name)) == if name in names then RenderNodes(names) else RenderNodes(names) + [RenderNode(name)]
  {
    hide RenderNode;
  }

  method HasNode(nodes: seq<NodeDef>, id: string) returns (found: bool)
    ensures found <==> id in Ids(nodes)
  {
    var i := 0;
    while i < |nodes|
      invariant 0 <= i <= |nodes|
      invariant forall k :: 0 <= k < i ==> nodes[k].id != id
    {
      if nodes[i].id == id {
        assert Ids(nodes)[i] == id;
        return true;
      }
      i := i + 1;
    }
    found := false;
  }

  /** With distinct IDs, adding nodes to a rendered list is adding names. */
  lemma WithNodeRendered(wf: Workflow, names: seq<Name>, name: Name)
    requires AgentsDefined(wf) && DistinctIds(wf, CustomStrategy) && AllInUniverse(wf, names) && InUniverse(wf, name)
    ensures WithNode(RenderNodes(names), RenderNode(name)) == RenderNodes(WithName(names, name))
    ensures AllInUniverse(wf, WithName(names, name))
  {
    RenderedMembership(wf, names, name);
    RenderedIds(names);
    WithNameRendered(names, name);
    hide RenderNodes, Render, DistinctIds, InUniverse, RenderAll, Ids;
  }

  lemma {:induction false} ConditionNodesRendered(wf: Workflow, names: seq<Name>, t: string, deps: seq<string>)
    requires AgentsDefined(wf) && DistinctIds(wf, CustomStrategy) && AllInUniverse(wf, names)
    requires t in wf.tasks && forall dep :: dep in deps ==> IsGuarded(wf, dep, t)
    ensures WithConditionNodes(wf, RenderNodes(names), t, deps) == RenderNodes(WithConditions(wf, names, t, deps))
    ensures AllInUniverse(wf, WithConditions(wf, names, t, deps))
  {
    hide RenderNodes, RenderNode, DistinctIds, AllInUniverse, WithName, WithNode, IsGuarded;
    if deps != [] {
      var front, dep := deps[..|deps| - 1], deps[|deps| - 1];
      ConditionNodesRendered(wf, names, t, front);
      if dep in wf.tasks {
        WithNodeRendered(wf, WithConditions(wf, names, t, front), ConditionNode(dep, t));
      }
    }
  }

  lemma {:induction false} CustomNodesRendered(wf: Workflow, execution: map<string, Dependencies>, names: seq<Name>,
                                               ids: seq<string>)
    requires AgentsDefined(wf) && DistinctIds(wf, CustomStrategy) && AllInUniverse(wf, names)
    requires wf.execution == Some(execution) && forall i :: 0 <= i < |ids| ==> ids[i] in execution
    ensures WithCustomNodes(wf, execution, RenderNodes(names), ids) == RenderNodes(CustomNodes(wf, execution, names, ids))
    ensures AllInUniverse(wf, CustomNodes(wf, execution, names, ids))
  {
    hide RenderNodes, DistinctIds, AllInUniverse, WithConditions, WithConditionNodes;
    if ids != [] {
      var t := ids[|ids| - 1];
      CustomNodesRendered(wf, execution, names, ids[..|ids| - 1]);
      if t in wf.tasks && execution[t].condition != "" {
        ConditionNodesRendered(wf, CustomNodes(wf, execution, names, ids[..|ids| - 1]), t, execution[t].dependsOn);
      }
    }
  }

  /** One conditional dependency: the condition node unless its ID is taken, and the two edges through it. */
  method WireCondition(wf: Workflow, draft: Draft, dep: string, t: string)
    requires AgentsDefined(wf) && MapsMatch(wf, wf.tasks.Keys, draft.starts, draft.outputs)
    requires dep in wf.tasks && t in wf.tasks
    modifies draft`nodes, draft`edges
    ensures draft.edges == old(draft.edges) + RenderWires(ConditionWires(wf, dep, t))
    ensures draft.nodes == WithNode(old(draft.nodes), RenderNode(ConditionNode(dep, t)))
  {
    hide Render, RenderNodes, Chain, OutputHandle, InputHandle, OutputOf, StartOf, Ids;
    var id := ConditionId(dep, t);
    var known := HasNode(draft.nodes, id);
    if !known {
      draft.AppendNode(id, ConditionType());
    }
    draft.AppendEdge(draft.outputs[dep], OutputHandle(), id, InputHandle());
    draft.AppendEdge(id, draft.starts[t], draft.starts[t], InputHandle());
  }

  method WireConditions(wf: Workflow, draft: Draft, t: string, deps: seq<string>)
    requires AgentsDefined(wf) && MapsMatch(wf, wf.tasks.Keys, draft.starts, draft.outputs) && t in wf.tasks
    modifies draft`nodes, draft`edges
    ensures draft.edges == old(draft.edges) + RenderWires(ConditionalWires(wf, t, deps))
    ensures draft.nodes == WithConditionNodes(wf, old(draft.nodes), t, deps)
  {
    hide Render, RenderNode, RenderWires, ConditionWires, WithNode;
    NothingYet(wf);
    var i := 0;
    while i < |deps|
      invariant 0 <= i <= |deps|
      invariant draft.edges == old(draft.edges) + RenderWires(ConditionalWires(wf, t, deps[..i]))
      invariant draft.nodes == WithConditionNodes(wf, old(draft.nodes), t, deps[..i])
    {
      assert deps[..i + 1][..i] == deps[..i];
      if deps[i] in draft.outputs {
        RenderWiresAppend(ConditionalWires(wf, t, deps[..i]), ConditionWires(wf, deps[i], t));
        WireCondition(wf, draft, deps[i], t);
      } else {
        Associate(ConditionalWires(wf, t, deps[..i]), [], [], []);
      }
      i := i + 1;
    }
    assert deps[..i] == deps;
  }

  /** Edges for the declared dependencies of each key that is a task, through condition nodes where asked. */
  method WireDependencies(wf: Workflow, draft: Draft, execution: map<string, Dependencies>, ids: seq<string>)
    requires AgentsDefined(wf) && MapsMatch(wf, wf.tasks.Keys, draft.starts, draft.outputs)
    requires forall i :: 0 <= i < |ids| ==> ids[i] in execution
    modifies draft`nodes, draft`edges
    ensures draft.edges == old(draft.edges) + RenderWires(CustomWires(wf, execution, ids))
    ensures draft.nodes == WithCustomNodes(wf, execution, old(draft.nodes), ids)
  {
    hide Render, RenderWires, ConditionalWires, RefWires, WithConditionNodes, InputHandle, Chain;
    NothingYet(wf);
    var i := 0;
    while i < |ids|
      invariant 0 <= i <= |ids|
      invariant draft.edges == old(draft.edges) + RenderWires(CustomWires(wf, execution, ids[..i]))
      invariant draft.nodes == WithCustomNodes(wf, execution, old(draft.nodes), ids[..i])
    {
      var t := ids[i];
      assert ids[..i + 1][..i] == ids[..i];
      if t in draft.outputs {
        RenderWiresAppend(CustomWires(wf, execution, ids[..i]), DependencyWires(wf, t, execution[t]));
        if execution[t].condition != "" {
          WireConditions(wf, draft, t, execution[t].dependsOn);
        } else {
          WireRefs(wf, draft, t, execution[t].dependsOn, InputHandle());
        }
      } else {
        Associate(CustomWires(wf, execution, ids[..i]), [], [], []);
      }
      i := i + 1;
    }
    assert ids[..i] == ids;
  }

  predicate IsRoot(execution: map<string, Dependencies>, t: string) {
    t !in execution || execution[t].dependsOn == []
  }

  /** The start of the first task without dependencies, or "". */
  function RootEntry(wf: Workflow, execution: map<string, Dependencies>, ids: seq<string>): string
    requires AgentsDefined(wf) && AllTasks(wf, ids)
  {
    if ids == [] then ""
    else if IsRoot(execution, ids[0]) then Render(StartOf(wf, ids[0]))
    else RootEntry(wf, execution, ids[1..])
  }

  lemma {:induction false} RootEntryAt(wf: Workflow, execution: map<string, Dependencies>, ids: seq<string>, i: nat)
    requires AgentsDefined(wf) && AllTasks(wf, ids) && i <= |ids|
    requires forall j :: 0 <= j < i ==> !IsRoot(execution, ids[j])
    requires i < |ids| ==> IsRoot(execution, ids[i])
    ensures RootEntry(wf, execution, ids) == if i == |ids| then "" else Render(StartOf(wf, ids[i]))
  {
    hide Render, StartOf, Chain;
    if i > 0 {
      RootEntryAt(wf, execution, ids[1..], i - 1);
    }
  }

  /** The task is listed with dependencies. */
  ghost predicate Declares(execution: map<string, Dependencies>, t: string) {
    t in execution && execution[t].dependsOn != []
  }

  /**
   No entry exactly when every task declares dependencies; otherwise the start of the first task in the
   given order that is not listed or declares none.
   */
  ghost predicate EntersAtFirstRoot(wf: Workflow, execution: map<string, Dependencies>, ids: seq<string>, entry: string)
    requires AgentsDefined(wf) && AllTasks(wf, ids)
  {
    && (entry == "" <==> forall i :: 0 <= i < |ids| ==> Declares(execution, ids[i]))
    && (entry != "" ==>
          exists i :: 0 <= i < |ids| && !Declares(execution, ids[i]) && entry == Render(StartOf(wf, ids[i]))
                      && forall j :: 0 <= j < i ==> Declares(execution, ids[j]))
  }

  lemma RenderIsNotEmpty(name: Name)
    ensures Render(name) != ""
  {
    assert |Render(name)| > 0;
  }

  lemma RootEntryIsFirst(wf: Workflow, execution: map<string, Dependencies>, ids: seq<string>)
    requires AgentsDefined(wf) && AllTasks(wf, ids)
    ensures EntersAtFirstRoot(wf, execution, ids, RootEntry(wf, execution, ids))
  {
    hide StartOf, Chain, Render, RootEntry;
    var i: nat := 0;
    while i < |ids| && Declares(execution, ids[i])
      invariant i <= |ids| && forall j :: 0 <= j < i ==> Declares(execution, ids[j])
    {
      i := i + 1;
    }
    assert forall j :: 0 <= j < i ==> !IsRoot(execution, ids[j]);
    RootEntryAt(wf, execution, ids, i);
    hide IsRoot, Declares;
    if i < |ids| {
      RenderIsNotEmpty(StartOf(wf, ids[i]));
    }
  }

  /** The position of the first task without dependencies, or the number of tasks. */
  method FirstRoot(execution: map<string, Dependencies>, ids: seq<string>) returns (i: nat)
    ensures i <= |ids| && (i < |ids| ==> IsRoot(execution, ids[i]))
    ensures forall j :: 0 <= j < i ==> !IsRoot(execution, ids[j])
  {
    i := 0;
    while i < |ids| && !IsRoot(execution, ids[i])
      invariant i <= |ids|
      invariant forall j :: 0 <= j < i ==> !IsRoot(execution, ids[j])
    {
      i := i + 1;
    }
  }

  method ChooseEntry(wf: Workflow, draft: Draft, execution: map<string, Dependencies>, ids: seq<string>)
    requires AgentsDefined(wf) && MapsMatch(wf, wf.tasks.Keys, draft.starts, draft.outputs)
    requires AllTasks(wf, ids) && draft.entry == ""
    modifies draft`entry
    ensures draft.entry == RootEntry(wf, execution, ids) && EntersAtFirstRoot(wf, execution, ids, draft.entry)
  {
    RootEntryIsFirst(wf, execution, ids);
    var i := FirstRoot(execution, ids);
    RootEntryAt(wf, execution, ids, i);
    hide Render, Chain, StartOf, OutputOf, EntersAtFirstRoot, RootEntry, IsRoot;
    if i < |ids| {
      draft.entry := draft.starts[ids[i]];
    }
  }

  /** Dependencies, then the first task without any as entry. */
  method CompileCustom(wf: Workflow, draft: Draft, execution: map<string, Dependencies>, taskIDs: seq<string>,
                       execIDs: seq<string>)
    requires AgentsDefined(wf) && MapsMatch(wf, wf.tasks.Keys, draft.starts, draft.outputs)
    requires AllTasks(wf, taskIDs) && forall i :: 0 <= i < |execIDs| ==> execIDs[i] in execution
    requires draft.entry == ""
    modifies draft`nodes, draft`edges, draft`entry
    ensures draft.edges == old(draft.edges) + RenderWires(CustomWires(wf, execution, execIDs))
    ensures draft.nodes == WithCustomNodes(wf, execution, old(draft.nodes), execIDs)
    ensures draft.entry == RootEntry(wf, execution, taskIDs) && EntersAtFirstRoot(wf, execution, taskIDs, draft.entry)
  {
    hide RenderWires, CustomWires, WithCustomNodes, Chain, RootEntry, MapsMatch, EntersAtFirstRoot;
    WireDependencies(wf, draft, execution, execIDs);
    ChooseEntry(wf, draft, execution, taskIDs);
  }

  // ----- the whole compiler

  datatype Strategy = SequentialStrategy | CustomStrategy

  /** An enumeration of the tasks and of the keys of execution.tasks, in the order the compiler sorts them. */
  ghost predicate Enumerates(wf: Workflow, taskIDs: seq<string>, execIDs: seq<string>) {
    && NoDup(taskIDs) && Elements(taskIDs) == wf.tasks.Keys
    && (wf.execution.Some? ==> NoDup(execIDs) && Elements(execIDs) == wf.execution.value.Keys)
  }

  ghost function StrategyWires(wf: Workflow, strategy: Strategy, execIDs: seq<string>): seq<Wire>
    requires AgentsDefined(wf)
  {
    match strategy
    case SequentialStrategy => if AllTasks(wf, wf.taskOrder) then OrderWires(wf, wf.taskOrder) else []
    case CustomStrategy =>
      if wf.execution.Some? && forall i :: 0 <= i < |execIDs| ==> execIDs[i] in wf.execution.value
      then CustomWires(wf, wf.execution.value, execIDs) else []
  }

  ghost function CompiledWires(wf: Workflow, strategy: Strategy, taskIDs: seq<string>, execIDs: seq<string>): seq<Wire>
    requires AgentsDefined(wf) && AllTasks(wf, taskIDs)
  {
    TaskWires(wf, taskIDs) + ReferenceWires(wf, taskIDs) + StrategyWires(wf, strategy, execIDs)
  }

  ghost function CompiledNames(wf: Workflow, strategy: Strategy, taskIDs: seq<string>, execIDs: seq<string>): seq<Name>
    requires AgentsDefined(wf) && AllTasks(wf, taskIDs)
  {
    var names := TaskNodes(wf, taskIDs);
    if strategy.CustomStrategy? && wf.execution.Some?
       && forall i :: 0 <= i < |execIDs| ==> execIDs[i] in wf.execution.value
    then CustomNodes(wf, wf.execution.value, names, execIDs) else names
  }

  /** The nodes in order, whether or not IDs clash. */
  ghost function CompiledNodes(wf: Workflow, strategy: Strategy, taskIDs: seq<string>, execIDs: seq<string>): seq<NodeDef>
    requires AgentsDefined(wf) && AllTasks(wf, taskIDs)
  {
    var nodes := RenderNodes(TaskNodes(wf, taskIDs));
    if strategy.CustomStrategy? && wf.execution.Some?
       && forall i :: 0 <= i < |execIDs| ==> execIDs[i] in wf.execution.value
    then WithCustomNodes(wf, wf.execution.value, nodes, execIDs) else nodes
  }

  /** Without clashes they are the compiled names, rendered. */
  lemma NodesAreNames(wf: Workflow, strategy: Strategy, taskIDs: seq<string>, execIDs: seq<string>)
    requires AgentsDefined(wf) && AllTasks(wf, taskIDs) && (strategy.SequentialStrategy? || DistinctIds(wf, strategy))
    ensures CompiledNodes(wf, strategy, taskIDs, execIDs) == RenderNodes(CompiledNames(wf, strategy, taskIDs, execIDs))
    ensures Ids(CompiledNodes(wf, strategy, taskIDs, execIDs)) == RenderAll(CompiledNames(wf, strategy, taskIDs, execIDs))
  {
    TaskNodesInUniverse(wf, taskIDs);
    hide RenderNodes, RenderAll, Ids, TaskNodes, CustomNodes, WithCustomNodes, DistinctIds, AllInUniverse;
    if strategy.CustomStrategy? && wf.execution.Some?
       && forall i :: 0 <= i < |execIDs| ==> execIDs[i] in wf.execution.value
    {
      CustomNodesRendered(wf, wf.execution.value, TaskNodes(wf, taskIDs), execIDs);
    }
    RenderedIds(CompiledNames(wf, strategy, taskIDs, execIDs));
  }

  ghost function CompiledEntry(wf: Workflow, strategy: Strategy, taskIDs: seq<string>): string
    requires AgentsDefined(wf) && AllTasks(wf, taskIDs)
  {
    match strategy
    case SequentialStrategy =>
      if wf.taskOrder != [] && AllTasks(wf, wf.taskOrder) then Render(StartOf(wf, wf.taskOrder[0])) else ""
    case CustomStrategy =>
      if wf.execution.Some? then RootEntry(wf, wf.execution.value, taskIDs) else ""
  }

  /** Exactly when the compiler succeeds. */
  ghost predicate Compilable(wf: Workflow, strategy: Strategy) {
    && AgentsDefined(wf)
    && (strategy.SequentialStrategy? ==> wf.taskOrder != [] && (|wf.taskOrder| == 1 || AllTasks(wf, wf.taskOrder)))
  }

  lemma TaskNodesInUniverse(wf: Workflow, ids: seq<string>)
    requires AgentsDefined(wf) && AllTasks(wf, ids)
    ensures AllInUniverse(wf, TaskNodes(wf, ids))
  {
    if ids != [] {
      var t := ids[|ids| - 1];
      TaskNodesInUniverse(wf, ids[..|ids| - 1]);
      assert forall i :: 0 <= i < |Chain(wf, t)| ==> !Chain(wf, t)[i].ConditionNode? && Chain(wf, t)[i].task == t;
      hide Chain;
    }
  }

  /** Dispatches on the strategy. */
  method CompileExecutionStrategy(wf: Workflow, strategy: Strategy, draft: Draft, taskIDs: seq<string>, execIDs: seq<string>)
    returns (err: Option<CompileError>)
    requires AgentsDefined(wf) && MapsMatch(wf, wf.tasks.Keys, draft.starts, draft.outputs)
    requires Enumerates(wf, taskIDs, execIDs) && AllTasks(wf, taskIDs)
    requires draft.nodes == RenderNodes(TaskNodes(wf, taskIDs)) && draft.entry == ""
    modifies draft
    ensures err.None? <==> Compilable(wf, strategy)
    ensures err.None? ==> draft.edges == old(draft.edges) + RenderWires(StrategyWires(wf, strategy, execIDs))
    ensures err.None? ==> draft.nodes == CompiledNodes(wf, strategy, taskIDs, execIDs)
    ensures err.None? ==> draft.entry == CompiledEntry(wf, strategy, taskIDs)
  {
    hide Render, RenderNodes, RenderWires, MapsMatch, TaskNodes, OrderWires, CustomWires, RootEntry, StartOf, NoDup;
    hide WithCustomNodes;
    NothingYet(wf);
    Associate(draft.edges, [], [], []);
    match strategy {
      case SequentialStrategy =>
        err := CompileSequential(wf, draft);
      case CustomStrategy =>
        err := None;
        if wf.execution.Some? {
          assert forall i :: 0 <= i < |execIDs| ==> execIDs[i] in Elements(execIDs);
          CompileCustom(wf, draft, wf.execution.value, taskIDs, execIDs);
        }
    }
  }

  lemma EnumeratedAreTasks(wf: Workflow, taskIDs: seq<string>, execIDs: seq<string>)
    requires Enumerates(wf, taskIDs, execIDs)
    ensures AllTasks(wf, taskIDs)
  {
    assert forall i :: 0 <= i < |taskIDs| ==> taskIDs[i] in Elements(taskIDs);
  }

  lemma EntryIsChosen(wf: Workflow, strategy: Strategy, taskIDs: seq<string>)
    requires AgentsDefined(wf) && AllTasks(wf, taskIDs)
    ensures strategy.CustomStrategy? && wf.execution.Some? ==>
              EntersAtFirstRoot(wf, wf.execution.value, taskIDs, CompiledEntry(wf, strategy, taskIDs))
    ensures strategy.SequentialStrategy? && wf.taskOrder != [] && AllTasks(wf, wf.taskOrder) ==>
              CompiledEntry(wf, strategy, taskIDs) == Render(StartOf(wf, wf.taskOrder[0]))
  {
    if wf.execution.Some? {
      RootEntryIsFirst(wf, wf.execution.value, taskIDs);
    }
    hide EntersAtFirstRoot, RootEntry, Render, Chain;
  }

  /** Nodes and references, then the strategy, then sorting. */
  method Compile(wf: Workflow, strategy: Strategy, taskIDs: seq<string>, execIDs: seq<string>)
    returns (r: Result<GraphDefinition, CompileError>)
    requires Enumerates(wf, taskIDs, execIDs)
    ensures r.Ok? <==> Compilable(wf, strategy)
    ensures r.Ok? ==> AllTasks(wf, taskIDs)
    ensures r.Ok? && strategy.CustomStrategy? && wf.execution.Some? ==>
              EntersAtFirstRoot(wf, wf.execution.value, taskIDs, r.value.entry)
    ensures r.Ok? && strategy.SequentialStrategy? && AllTasks(wf, wf.taskOrder) ==>
              r.value.entry == Render(StartOf(wf, wf.taskOrder[0]))
    ensures r.Ok? ==>
              && multiset(r.value.edges) == multiset(RenderWires(CompiledWires(wf, strategy, taskIDs, execIDs)))
              && Ordered(r.value.edges)
              && r.value.entry == CompiledEntry(wf, strategy, taskIDs)
              && r.value.nodes == CompiledNodes(wf, strategy, taskIDs, execIDs)
              && (strategy.SequentialStrategy? || DistinctIds(wf, strategy) ==>
                    && r.value.nodes == RenderNodes(CompiledNames(wf, strategy, taskIDs, execIDs))
                    && Ids(r.value.nodes) == RenderAll(CompiledNames(wf, strategy, taskIDs, execIDs)))
  {
    hide RenderNodes, RenderWires, MapsMatch, TaskNodes, TaskWires, ReferenceWires, StrategyWires, CompiledNodes;
    hide CompiledNames, CompiledEntry, DistinctIds, Ids, NoDup, RenderAll, AllTasks, EntersAtFirstRoot, Render, Chain;
    EnumeratedAreTasks(wf, taskIDs, execIDs);
    var draft := new Draft();
    var err := CompileTaskNodes(wf, draft, taskIDs);
    if err.Some? {
      return Err(err.value);
    }
    WireTaskReferenceEdges(wf, draft, taskIDs);
    err := CompileExecutionStrategy(wf, strategy, draft, taskIDs, execIDs);
    if err.Some? {
      return Err(err.value);
    }
    EntryIsChosen(wf, strategy, taskIDs);
    RenderWiresAppend(TaskWires(wf, taskIDs), ReferenceWires(wf, taskIDs));
    RenderWiresAppend(TaskWires(wf, taskIDs) + ReferenceWires(wf, taskIDs), StrategyWires(wf, strategy, execIDs));
    if strategy.SequentialStrategy? || DistinctIds(wf, strategy) {
      NodesAreNames(wf, strategy, taskIDs, execIDs);
    }
    var sorted := SortEdges(draft.edges);
    r := Ok(GraphDefinition(draft.nodes, sorted, draft.entry));
  }
}
