/** Nodes as the runtime sees them, and the read-only view of a built graph. */
module Graphs {
  import opened Sequences
  import opened Digraphs
  import opened Kahn

  /** What the runtime can find out about a node through its interfaces. */
  datatype NodeKind =
    | Ordinary
    | Router
    | Merge(expectedInputs: nat)

  datatype Node = Node(id: string, kind: NodeKind)

  datatype GraphError =
    | NilNode
    | DuplicateNode(id: string)
    | InvalidEdge(missing: string)
    | NodeNotFound(id: string)
    | NoEntryNode
    | EmptyGraph
    | CycleDetected

  /** The contents of a graph, as the runtime reads them during a run. */
  datatype Graph = Graph(nodeOrder: seq<string>, nodes: map<string, Node>, edges: seq<Edge<string>>, entry: string)
  {
    function Successors(id: string): seq<string> {
      Targets(edges, id)
    }

    function Predecessors(id: string): seq<string> {
      Sources(edges, id)
    }

    ghost function Links(): set<Edge<string>> {
      EdgeSet(edges)
    }

    /** Node and edge lists are repeat-free and edges stay among the nodes. */
    ghost predicate WellFormed() {
      && NoDup(nodeOrder) && Elements(nodeOrder) == nodes.Keys
      && (forall id :: id in nodes ==> nodes[id].id == id)
      && NoDup(edges)
      && (forall e :: e in edges ==> e.source in nodes && e.target in nodes)
    }

    /** The graph check made by both BasicGraph.Validate and the runtime. */
    function Validate(): (r: Option<GraphError>)
      ensures r.None? ==> entry in nodes
    {
      if |nodes| == 0 then Some(EmptyGraph)
      else if entry == "" then Some(NoEntryNode)
      else if entry !in nodes then Some(NodeNotFound(entry))
      else None
    }
  }
}

/** The mutable graph under construction, and the two traversals it offers. */
module BasicGraphs {
  import opened Sequences
  import opened Digraphs
  import opened Kahn
  import opened Graphs

  /** Each adjacency map lists, per node, the neighbours that the edge list gives it, in edge order. */
  ghost predicate Adjacent(ids: set<string>, edges: seq<Edge<string>>,
                           successors: map<string, seq<string>>, predecessors: map<string, seq<string>>)
  {
    && successors.Keys == ids
    && predecessors.Keys == ids
    && (forall id :: id in ids ==> successors[id] == Targets(edges, id))
    && (forall id :: id in ids ==> predecessors[id] == Sources(edges, id))
  }

  class BasicGraph {
    var nodes: map<string, Node>
    var nodeOrder: seq<string>
    var edges: seq<Edge<string>>
    var successors: map<string, seq<string>>
    var predecessors: map<string, seq<string>>
    var entry: string

    ghost function View(): Graph
      reads this
    {
      Graph(nodeOrder, nodes, edges, entry)
    }

    /** The edge list and the two adjacency maps describe the same graph. */
    ghost predicate Valid()
      reads this
    {
      && View().WellFormed()
      && Adjacent(nodes.Keys, edges, successors, predecessors)
      && (entry == "" || entry in nodes)
    }

    constructor ()
      ensures Valid()
      ensures View() == Graph([], map[], [], "")
    {
      nodes, nodeOrder, edges := map[], [], [];
      successors, predecessors, entry := map[], map[], "";
    }

    method AddNode(node: Option<Node>) returns (err: Option<GraphError>)
      requires Valid()
      modifies this
      ensures Valid()
      ensures err == if node.None? then Some(NilNode)
                     else if node.value.id in old(nodes) then Some(DuplicateNode(node.value.id)) else None
      ensures err.Some? ==> View() == old(View())
      ensures err.None? ==> View() == old(View()).(nodeOrder := old(nodeOrder) + [node.value.id],
                                                   nodes := old(nodes)[node.value.id := node.value])
    {
      hide Adjacent;
      hide Graph.WellFormed;
      if node.None? {
        return Some(NilNode);
      }
      var id := node.value.id;
      if id in nodes {
        return Some(DuplicateNode(id));
      }
      NodeAdded(View(), successors, predecessors, node.value);
      nodes := nodes[id := node.value];
      assert nodes.Keys == old(nodes).Keys + {id};
      nodeOrder := nodeOrder + [id];
      if id !in successors {
        successors := successors[id := []];
      }
      if id !in predecessors {
        predecessors := predecessors[id := []];
      }
      err := None;
    }

    method AddEdge(source: string, target: string) returns (err: Option<GraphError>)
      requires Valid()
      modifies this
      ensures Valid()
      ensures err == if source !in old(nodes) then Some(InvalidEdge(source))
                     else if target !in old(nodes) then Some(InvalidEdge(target)) else None
      ensures err.Some? ==> View() == old(View())
      ensures err.None? ==> View() == old(View()).(edges := old(edges) + if Edge(source, target) in old(edges) then []
                                                                         else [Edge(source, target)])
    {
      hide Adjacent;
      hide Graph.WellFormed;
      if source !in nodes {
        return Some(InvalidEdge(source));
      }
      if target !in nodes {
        return Some(InvalidEdge(target));
      }
      var known := HasEdge(edges, source, target);
      if known {
        return None;
      }
      EdgeAdded(View(), successors, predecessors, source, target);
      edges := edges + [Edge(source, target)];
      successors := successors[source := Lookup(successors, source) + [target]];
      predecessors := predecessors[target := Lookup(predecessors, target) + [source]];
      err := None;
    }

    method SetEntry(id: string) returns (err: Option<GraphError>)
      requires Valid()
      modifies this`entry
      ensures Valid()
      ensures err == if id in nodes then None else Some(NodeNotFound(id))
      ensures entry == if id in nodes then id else old(entry)
    {
      if id !in nodes {
        return Some(NodeNotFound(id));
      }
      entry := id;
      err := None;
    }

    /**
     Sorts by Kahn's algorithm from the sources taken in any order. Fails exactly when a cycle is
     refused and present; otherwise lists, in an order every edge respects, the nodes off and not
     below any cycle: all of them when the graph is acyclic.
     */
    method TopologicalSort(allowCycles: bool) returns (r: Result<seq<string>, GraphError>)
      requires Valid()
      ensures r.Ok? <==> allowCycles || !Cyclic(View().Links())
      ensures r.Err? ==> r.error == CycleDetected
      ensures r.Ok? ==> NoDup(r.value) && EdgesPointForward(View().Links(), r.value)
      ensures r.Ok? ==> forall id :: id in r.value <==> id in nodes && !BelowCycle(View().Links(), id)
      ensures r.Ok? && !Cyclic(View().Links()) ==> Elements(r.value) == Elements(nodeOrder) && |r.value| == |nodeOrder|
    {
      var inDegree := map id | id in nodes :: |predecessors[id]|;
      var queue := CollectSources(inDegree);
      CountsPrepared(View(), successors, predecessors);
      var order, _ := Drain(edges, inDegree, successors, queue);
      FullOrderMeansAcyclic(View(), order);
      if |order| != |nodes| && !allowCycles {
        return Err(CycleDetected);
      }
      r := Ok(order);
    }

    /** Depth-first search: lists, without repeats, exactly what can be reached from the start. */
    method Reachable(start: string) returns (result: seq<string>)
      requires Valid()
      ensures NoDup(result)
      ensures forall id :: id in result <==> Reaches(View().Links(), start, id)
    {
      ReachesSelf(View().Links(), start);
      var visited;
      visited, result := Visit(start, start, {}, []);
      forall id
        ensures id in result <==> Reaches(View().Links(), start, id)
      {
        if Reaches(View().Links(), start, id) {
          var p :| PathFromTo(View().Links(), p, start, id);
          assert ClosedBeyond(View(), {}, visited);
          ClosedSetHoldsReachable(View().Links(), visited, p);
        }
      }
    }

    /** The recursive closure `visit`; `start` is where the search began. */
    method Visit(ghost start: string, id: string, visited0: set<string>, result0: seq<string>)
      returns (visited: set<string>, result: seq<string>)
      requires Valid()
      requires Elements(result0) == visited0 && NoDup(result0)
      requires visited0 <= nodes.Keys + {start}
      requires Reaches(View().Links(), start, id)
      requires forall v :: v in visited0 ==> Reaches(View().Links(), start, v)
      ensures Elements(result) == visited && NoDup(result)
      ensures visited0 <= visited && id in visited
      ensures visited <= nodes.Keys + {start}
      ensures forall v :: v in visited ==> Reaches(View().Links(), start, v)
      ensures ClosedBeyond(View(), visited0, visited)
      decreases nodes.Keys + {start} - visited0, 1
    {
      hide Graph.WellFormed;
      hide NoDup;
      hide Reaches;
      if id in visited0 {
        return visited0, result0;
      }
      ReachedIsNode(View(), start, id);
      ExtendNoDup(result0, id);
      visited, result := visited0 + {id}, result0 + [id];
      NeighboursOf(View(), successors, predecessors, id);
      visited, result := VisitAll(start, Lookup(successors, id), id, visited, result);
      forall u, v | u in visited && u !in visited0 && Edge(u, v) in View().Links()
        ensures v in visited
      {
        if u == id {
          TargetsMembership(edges, id, v);
        }
      }
    }

    /** The loop over one node's successors. */
    method VisitAll(ghost start: string, targets: seq<string>, id: string, visited0: set<string>, result0: seq<string>)
      returns (visited: set<string>, result: seq<string>)
      requires Valid()
      requires Elements(result0) == visited0 && NoDup(result0)
      requires visited0 <= nodes.Keys + {start}
      requires targets == Targets(edges, id) && Reaches(View().Links(), start, id)
      requires forall v :: v in visited0 ==> Reaches(View().Links(), start, v)
      ensures Elements(result) == visited && NoDup(result)
      ensures visited0 <= visited && Elements(targets) <= visited
      ensures visited <= nodes.Keys + {start}
      ensures forall v :: v in visited ==> Reaches(View().Links(), start, v)
      ensures ClosedBeyond(View(), visited0, visited)
      decreases nodes.Keys + {start} - visited0, 2
    {
      hide Adjacent;
      hide Graph.WellFormed;
      hide NoDup;
      hide Reaches;
      visited, result := visited0, result0;
      var i := 0;
      while i < |targets|
        invariant 0 <= i <= |targets|
        invariant Elements(result) == visited && NoDup(result)
        invariant visited0 <= visited && Elements(targets[..i]) <= visited
        invariant visited <= nodes.Keys + {start}
        invariant forall v :: v in visited ==> Reaches(View().Links(), start, v)
        invariant ClosedBeyond(View(), visited0, visited)
      {
        TargetsMembership(edges, id, targets[i]);
        ReachesEdge(View().Links(), id, targets[i]);
        ReachesTransitive(View().Links(), start, id, targets[i]);
        visited, result := Visit(start, targets[i], visited, result);
        assert targets[..i + 1] == targets[..i] + [targets[i]];
        i := i + 1;
      }
      assert targets[..i] == targets;
    }
  }

  lemma NeighboursOf(g: Graph, successors: map<string, seq<string>>, predecessors: map<string, seq<string>>, id: string)
    requires g.WellFormed() && Adjacent(g.nodes.Keys, g.edges, successors, predecessors)
    ensures Lookup(successors, id) == Targets(g.edges, id)
  {
    if id !in g.nodes {
      NoEdgesNoNeighbours(g.edges, id);
    }
  }

  /** Every link out of a node visited since `before` stays among the visited nodes. */
  ghost predicate ClosedBeyond(g: Graph, before: set<string>, visited: set<string>) {
    forall u, v :: u in visited && u !in before && Edge(u, v) in g.Links() ==> v in visited
  }

  lemma NodeAdded(g: Graph, successors: map<string, seq<string>>, predecessors: map<string, seq<string>>, node: Node)
    requires g.WellFormed() && Adjacent(g.nodes.Keys, g.edges, successors, predecessors)
    requires node.id !in g.nodes
    ensures g.(nodeOrder := g.nodeOrder + [node.id], nodes := g.nodes[node.id := node]).WellFormed()
    ensures node.id !in successors && node.id !in predecessors
    ensures Adjacent(g.nodes.Keys + {node.id}, g.edges, successors[node.id := []], predecessors[node.id := []])
  {
    hide NoDup;
    NoEdgesNoNeighbours(g.edges, node.id);
    ExtendNoDup(g.nodeOrder, node.id);
  }

  lemma EdgeAdded(g: Graph, successors: map<string, seq<string>>, predecessors: map<string, seq<string>>,
                  source: string, target: string)
    requires g.WellFormed() && Adjacent(g.nodes.Keys, g.edges, successors, predecessors)
    requires source in g.nodes && target in g.nodes && Edge(source, target) !in g.edges
    ensures g.(edges := g.edges + [Edge(source, target)]).WellFormed()
    ensures Adjacent(g.nodes.Keys, g.edges + [Edge(source, target)],
                     successors[source := Lookup(successors, source) + [target]],
                     predecessors[target := Lookup(predecessors, target) + [source]])
  {
    hide NoDup;
    var e := Edge(source, target);
    ExtendNoDup(g.edges, e);
    forall id | id in g.nodes {
      TargetsAppend(g.edges, e, id);
    }
  }

  /** In a well-formed graph, a cycle exists exactly when some node hangs below one. */
  lemma CycleHitsANode(g: Graph)
    requires g.WellFormed()
    ensures Cyclic(g.Links()) <==> exists id :: id in g.nodes && BelowCycle(g.Links(), id)
  {
    if Cyclic(g.Links()) {
      var v :| ReachesPlus(g.Links(), v, v);
      var p :| PathFromTo(g.Links(), p, v, v) && |p| >= 2;
      assert Edge(p[0], p[1]) in g.Links();
      ReachesSelf(g.Links(), v);
      assert BelowCycle(g.Links(), v);
    }
  }

  method HasEdge(edges: seq<Edge<string>>, source: string, target: string) returns (found: bool)
    ensures found <==> Edge(source, target) in edges
  {
    var i := 0;
    while i < |edges|
      invariant 0 <= i <= |edges|
      invariant forall k :: 0 <= k < i ==> edges[k] != Edge(source, target)
    {
      if edges[i].source == source && edges[i].target == target {
        return true;
      }
      i := i + 1;
    }
    found := false;
  }

  /** The nodes of in-degree zero, in the arbitrary order of a map iteration. */
  method CollectSources(inDegree: map<string, int>) returns (queue: seq<string>)
    ensures NoDup(queue)
    ensures SeededWithSources(inDegree, queue)
  {
    queue := [];
    var unseen := inDegree.Keys;
    while unseen != {}
      invariant unseen <= inDegree.Keys
      invariant NoDup(queue) && Elements(queue) <= inDegree.Keys - unseen
      invariant forall id :: id in inDegree && id !in unseen ==> (id in queue <==> inDegree[id] == 0)
      decreases unseen
    {
      var id :| id in unseen;
      if inDegree[id] == 0 {
        ExtendNoDup(queue, id);
        queue := queue + [id];
      }
      unseen := unseen - {id};
    }
  }

  lemma CountsPrepared(g: Graph, successors: map<string, seq<string>>, predecessors: map<string, seq<string>>)
    requires g.WellFormed() && Adjacent(g.nodes.Keys, g.edges, successors, predecessors)
    ensures Prepared(g.edges, map id | id in g.nodes :: |predecessors[id]|, successors)
  {
    forall id | id in g.nodes {
      OpenEdgesInitially(g.edges, id);
    }
  }

  /** Comparing lengths tells whether Kahn's loop left a cycle behind. */
  lemma FullOrderMeansAcyclic(g: Graph, order: seq<string>)
    requires g.WellFormed() && NoDup(order)
    requires forall id :: id in order <==> id in g.nodes && !BelowCycle(g.Links(), id)
    ensures |order| == |g.nodes| <==> !Cyclic(g.Links())
    ensures !Cyclic(g.Links()) ==> Elements(order) == Elements(g.nodeOrder) && |order| == |g.nodeOrder|
  {
    CycleHitsANode(g);
    ElementsCardinality(order);
    ElementsCardinality(g.nodeOrder);
    assert |g.nodes| == |g.nodes.Keys|;
    SubsetCardinality(Elements(order), g.nodes.Keys);
    if !Cyclic(g.Links()) {
      assert Elements(order) == g.nodes.Keys;
    }
  }

  lemma ReachedIsNode(g: Graph, start: string, id: string)
    requires g.WellFormed() && Reaches(g.Links(), start, id)
    ensures id in g.nodes || id == start
  {
    var p :| PathFromTo(g.Links(), p, start, id);
    if |p| >= 2 {
      assert Edge(p[|p| - 2], p[|p| - 1]) in g.Links();
    }
  }
}
