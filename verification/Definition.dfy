/** Serialized graph definitions: structural validation and conversion to a runnable graph. */
module Definitions {
  import opened Sequences
  import opened Digraphs
  import opened Kahn
  import opened Graphs
  import opened BasicGraphs

  datatype NodeDef = NodeDef(id: string, nodeType: string)

  datatype EdgeDef = EdgeDef(source: string, sourceHandle: string, target: string, targetHandle: string)

  datatype GraphDefinition = GraphDefinition(nodes: seq<NodeDef>, edges: seq<EdgeDef>, entry: string)

  datatype Severity = Error | Warning

  /** Rule codes; the conditional-node rules CN-* are not told apart. */
  datatype Code = GR001 | GR002 | GR004 | GR005 | GR007 | GR010 | Conditional

  datatype Diagnostic = Diagnostic(code: Code, severity: Severity, subject: string)

  predicate HasErrors(diags: seq<Diagnostic>) {
    exists d :: d in diags && d.severity == Error
  }

  predicate HasCode(diags: seq<Diagnostic>, code: Code) {
    exists d :: d in diags && d.code == code
  }

  /** Node-to-node ends of the edges; edges that differ only in handles stay parallel. */
  function Ends(edges: seq<EdgeDef>): (ends: seq<Edge<string>>)
    ensures |ends| == |edges|
  {
    seq(|edges|, i requires 0 <= i < |edges| => Edge(edges[i].source, edges[i].target))
  }

  function Ids(nodes: seq<NodeDef>): (ids: seq<string>)
    ensures |ids| == |nodes|
  {
    seq(|nodes|, i requires 0 <= i < |nodes| => nodes[i].id)
  }

  ghost predicate Closed(gd: GraphDefinition) {
    forall e :: e in Ends(gd.edges) ==> e.source in Ids(gd.nodes) && e.target in Ids(gd.nodes)
  }

  ghost function Links(gd: GraphDefinition): set<Edge<string>> {
    EdgeSet(Ends(gd.edges))
  }

  /** A definition with distinct IDs, closed edges, an existing entry and no cycle. */
  ghost predicate Sound(gd: GraphDefinition) {
    && NoDup(Ids(gd.nodes))
    && Closed(gd)
    && (gd.entry == "" || gd.entry in Ids(gd.nodes))
    && !Cyclic(Links(gd))
  }

  ghost predicate Repeats(ids: seq<string>, id: string) {
    exists i, j :: 0 <= i < j < |ids| && ids[i] == id && ids[j] == id
  }

  lemma ExtendRepeats(ids: seq<string>, last: string)
    ensures forall id :: Repeats(ids + [last], id) <==> Repeats(ids, id) || (id == last && last in ids)
  {
    var longer := ids + [last];
    forall id | Repeats(ids, id)
      ensures Repeats(longer, id)
    {
      var i, j :| 0 <= i < j < |ids| && ids[i] == id && ids[j] == id;
      assert longer[i] == id && longer[j] == id;
    }
    if last in ids {
      var i :| 0 <= i < |ids| && ids[i] == last;
      assert longer[i] == last && longer[|ids|] == last;
    }
  }

  /** GR-005: a diagnostic per node whose ID appeared before; also collects the IDs. */
  method CheckDuplicates(nodes: seq<NodeDef>) returns (diags: seq<Diagnostic>, nodeIDs: set<string>)
    ensures nodeIDs == Elements(Ids(nodes))
    ensures forall d :: d in diags ==> d.code == GR005 && d.severity == Error
    ensures diags == [] <==> NoDup(Ids(nodes))
    ensures forall id :: Diagnostic(GR005, Error, id) in diags <==> Repeats(Ids(nodes), id)
  {
    diags, nodeIDs := [], {};
    var i := 0;
    while i < |nodes|
      invariant 0 <= i <= |nodes|
      invariant nodeIDs == Elements(Ids(nodes)[..i])
      invariant forall d :: d in diags ==> d.code == GR005 && d.severity == Error
      invariant diags == [] <==> NoDup(Ids(nodes)[..i])
      invariant forall id :: Diagnostic(GR005, Error, id) in diags <==> Repeats(Ids(nodes)[..i], id)
    {
      var ids := Ids(nodes);
      assert ids[..i + 1] == ids[..i] + [nodes[i].id];
      ExtendNoDup(ids[..i], nodes[i].id);
      ExtendRepeats(ids[..i], nodes[i].id);
      if nodes[i].id in nodeIDs {
        diags := diags + [Diagnostic(GR005, Error, nodes[i].id)];
      }
      nodeIDs := nodeIDs + {nodes[i].id};
      i := i + 1;
    }
    assert Ids(nodes)[..i] == Ids(nodes);
  }

  ghost predicate Touched(ends: seq<Edge<string>>, id: string) {
    exists e :: e in ends && (e.source == id || e.target == id)
  }

  lemma ExtendTouched(ends: seq<Edge<string>>, e: Edge<string>)
    ensures forall id :: Touched(ends + [e], id) <==> Touched(ends, id) || id == e.source || id == e.target
  {
    assert e in ends + [e];
    forall id | Touched(ends, id)
      ensures Touched(ends + [e], id)
    {
      var e' :| e' in ends && (e'.source == id || e'.target == id);
      assert e' in ends + [e];
    }
  }

  /** GR-001: a diagnostic per edge end that names no node. */
  method CheckEdgeRefs(edges: seq<EdgeDef>, nodeIDs: set<string>) returns (diags: seq<Diagnostic>)
    ensures forall d :: d in diags ==> d.code == GR001 && d.severity == Error
    ensures forall id :: Diagnostic(GR001, Error, id) in diags <==> id !in nodeIDs && Touched(Ends(edges), id)
    ensures diags == [] <==> forall e :: e in Ends(edges) ==> e.source in nodeIDs && e.target in nodeIDs
  {
    hide Touched;
    diags := [];
    var i := 0;
    ghost var ends := Ends(edges);
    NothingTouched();
    while i < |edges|
      invariant 0 <= i <= |edges|
      invariant forall d :: d in diags ==> d.code == GR001 && d.severity == Error
      invariant forall id :: Diagnostic(GR001, Error, id) in diags <==> id !in nodeIDs && Touched(ends[..i], id)
    {
      TakeNext(ends, i);
      ExtendTouched(ends[..i], ends[i]);
      if edges[i].source !in nodeIDs {
        diags := diags + [Diagnostic(GR001, Error, edges[i].source)];
      }
      if edges[i].target !in nodeIDs {
        diags := diags + [Diagnostic(GR001, Error, edges[i].target)];
      }
      i := i + 1;
    }
    assert ends[..i] == ends;
    NoneDangling(edges, nodeIDs, diags);
  }

  lemma NothingTouched()
    ensures forall id :: !Touched([], id)
  {
  }

  lemma NoneDangling(edges: seq<EdgeDef>, nodeIDs: set<string>, diags: seq<Diagnostic>)
    requires forall d :: d in diags ==> d.code == GR001 && d.severity == Error
    requires forall id :: Diagnostic(GR001, Error, id) in diags <==> id !in nodeIDs && Touched(Ends(edges), id)
    ensures diags == [] <==> forall e :: e in Ends(edges) ==> e.source in nodeIDs && e.target in nodeIDs
  {
    if diags == [] {
      forall e | e in Ends(edges)
        ensures e.source in nodeIDs && e.target in nodeIDs
      {
        assert Touched(Ends(edges), e.source) && Touched(Ends(edges), e.target);
        assert Diagnostic(GR001, Error, e.source) !in diags && Diagnostic(GR001, Error, e.target) !in diags;
      }
    } else {
      assert diags[0] in diags && diags[0] == Diagnostic(GR001, Error, diags[0].subject);
    }
  }

  /** GR-002: a warning per node with neither inbound nor outbound edges, unless it is the only node. */
  method CheckOrphans(gd: GraphDefinition) returns (diags: seq<Diagnostic>)
    ensures forall d :: d in diags ==> d.code == GR002 && d.severity == Warning
    ensures forall id :: Diagnostic(GR002, Warning, id) in diags <==>
              |gd.nodes| > 1 && id in Ids(gd.nodes)
              && !Touched(Ends(gd.edges), id)
  {
    diags := [];
    if |gd.nodes| <= 1 {
      return;
    }
    var ends := Ends(gd.edges);
    var touched := (set e | e in ends :: e.source) + (set e | e in ends :: e.target);
    var i := 0;
    while i < |gd.nodes|
      invariant 0 <= i <= |gd.nodes|
      invariant forall d :: d in diags ==> d.code == GR002 && d.severity == Warning
      invariant forall id :: Diagnostic(GR002, Warning, id) in diags <==> id in Ids(gd.nodes)[..i] && id !in touched
    {
      var id := gd.nodes[i].id;
      assert Ids(gd.nodes)[..i + 1] == Ids(gd.nodes)[..i] + [id];
      if id !in touched {
        diags := diags + [Diagnostic(GR002, Warning, id)];
      }
      i := i + 1;
    }
    assert Ids(gd.nodes)[..i] == Ids(gd.nodes);
  }

  lemma OrphansReported(gd: GraphDefinition, orphans: seq<Diagnostic>)
    requires forall d :: d in orphans ==> d.code == GR002 && d.severity == Warning
    requires forall id :: Diagnostic(GR002, Warning, id) in orphans <==>
               |gd.nodes| > 1 && id in Ids(gd.nodes) && !Touched(Ends(gd.edges), id)
    ensures orphans != [] <==> |gd.nodes| > 1 && exists id :: id in Ids(gd.nodes) && !Touched(Ends(gd.edges), id)
  {
    if orphans != [] {
      assert orphans[0] in orphans && orphans[0] == Diagnostic(GR002, Warning, orphans[0].subject);
    }
  }

  /** Adjacency and in-degrees of a definition, built edge by edge. */
  method CountEdges(gd: GraphDefinition) returns (inDegree: map<string, int>, successors: map<string, seq<string>>)
    requires Closed(gd)
    ensures inDegree.Keys == Elements(Ids(gd.nodes))
    ensures Prepared(Ends(gd.edges), inDegree, successors)
  {
    var ends := Ends(gd.edges);
    inDegree, successors := map nd | nd in gd.nodes :: nd.id := 0, map[];
    assert inDegree.Keys == Elements(Ids(gd.nodes)) by {
      assert forall i :: 0 <= i < |gd.nodes| ==> Ids(gd.nodes)[i] == gd.nodes[i].id;
    }
    var i := 0;
    assert Counted(ends[..0], inDegree, successors);
    while i < |gd.edges|
      invariant 0 <= i <= |gd.edges|
      invariant inDegree.Keys == Elements(Ids(gd.nodes))
      invariant Counted(ends[..i], inDegree, successors)
    {
      var e := ends[i];
      assert e in ends;
      assert ends[..i + 1] == ends[..i] + [e];
      CountOne(ends[..i], inDegree, successors, e);
      successors := successors[e.source := Lookup(successors, e.source) + [e.target]];
      inDegree := inDegree[e.target := inDegree[e.target] + 1];
      i := i + 1;
    }
    assert ends[..i] == ends;
    forall v | v in inDegree {
      OpenEdgesInitially(ends, v);
    }
  }

  /** The sources of a definition in node order; a repeated ID is queued each time it is listed. */
  method QueueSources(gd: GraphDefinition, inDegree: map<string, int>) returns (queue: seq<string>)
    requires inDegree.Keys == Elements(Ids(gd.nodes))
    ensures SeededWithSources(inDegree, queue)
    ensures NoDup(Ids(gd.nodes)) ==> NoDup(queue)
  {
    queue := [];
    var ids := Ids(gd.nodes);
    var i := 0;
    while i < |ids|
      invariant 0 <= i <= |ids|
      invariant forall v :: v in queue <==> v in ids[..i] && v in inDegree && inDegree[v] == 0
      invariant NoDup(ids) ==> NoDup(queue)
    {
      assert ids[..i + 1] == ids[..i] + [ids[i]];
      assert ids[i] in Elements(ids);
      if inDegree[ids[i]] == 0 {
        if NoDup(ids) {
          assert ids[i] !in ids[..i];
          ExtendNoDup(queue, ids[i]);
        }
        queue := queue + [ids[i]];
      }
      i := i + 1;
    }
    assert ids[..i] == ids;
  }

  /**
   GR-004 over a definition with closed edges. With distinct IDs it is silent exactly on acyclic
   multigraphs, and otherwise names exactly the nodes on or below a cycle.
   */
  method DetectCycle(gd: GraphDefinition) returns (cycle: Option<seq<string>>)
    requires Closed(gd)
    ensures NoDup(Ids(gd.nodes)) ==> (cycle.Some? <==> Cyclic(Links(gd)))
    ensures NoDup(Ids(gd.nodes)) && cycle.Some? ==>
              forall id :: id in cycle.value <==> id in Ids(gd.nodes) && BelowCycle(Links(gd), id)
  {
    var inDegree, successors := CountEdges(gd);
    var queue := QueueSources(gd, inDegree);
    var order;
    order, inDegree := Drain(Ends(gd.edges), inDegree, successors, queue);
    if NoDup(Ids(gd.nodes)) {
      ShortOrderMeansCycle(gd, order);
    }
    if |order| < |gd.nodes| {
      var cycleNodes := StuckNodes(gd, inDegree);
      return Some(cycleNodes);
    }
    cycle := None;
  }

  method StuckNodes(gd: GraphDefinition, inDegree: map<string, int>) returns (stuck: seq<string>)
    requires inDegree.Keys == Elements(Ids(gd.nodes))
    ensures forall id :: id in stuck <==> id in inDegree && inDegree[id] > 0
  {
    var ids := Ids(gd.nodes);
    stuck := [];
    var i := 0;
    while i < |ids|
      invariant 0 <= i <= |ids|
      invariant forall id :: id in stuck <==> id in ids[..i] && id in inDegree && inDegree[id] > 0
    {
      assert ids[..i + 1] == ids[..i] + [ids[i]];
      assert ids[i] in Elements(ids);
      if inDegree[ids[i]] > 0 {
        stuck := stuck + [ids[i]];
      }
      i := i + 1;
    }
    assert ids[..i] == ids;
  }

  lemma ShortOrderMeansCycle(gd: GraphDefinition, order: seq<string>)
    requires Closed(gd) && NoDup(Ids(gd.nodes)) && NoDup(order)
    requires forall id :: id in order <==> id in Elements(Ids(gd.nodes)) && !BelowCycle(Links(gd), id)
    ensures |order| < |gd.nodes| <==> Cyclic(Links(gd))
  {
    var ids := Ids(gd.nodes);
    ElementsCardinality(order);
    ElementsCardinality(ids);
    SubsetCardinality(Elements(order), Elements(ids));
    if Cyclic(Links(gd)) {
      var v :| ReachesPlus(Links(gd), v, v);
      var p :| PathFromTo(Links(gd), p, v, v) && |p| >= 2;
      assert Edge(p[0], p[1]) in Ends(gd.edges);
      ReachesSelf(Links(gd), v);
      assert BelowCycle(Links(gd), v) && v in Elements(ids) && v !in Elements(order);
    } else {
      CyclicIffBelowCycle(Links(gd));
      assert Elements(order) == Elements(ids);
    }
  }

  /**
   The structural rules, between the schema-header rules (GR-010) and the conditional-node rules
   (CN-*), whose diagnostics are taken as given.
   */
  method Validate(gd: GraphDefinition, header: seq<Diagnostic>, conditional: seq<Diagnostic>)
    returns (diags: seq<Diagnostic>)
    requires forall d :: d in header ==> d.code == GR010
    requires forall d :: d in conditional ==> d.code.Conditional?
    ensures HasCode(diags, GR005) <==> !NoDup(Ids(gd.nodes))
    ensures HasCode(diags, GR001) <==> !Closed(gd)
    ensures HasCode(diags, GR007) <==> gd.entry != "" && gd.entry !in Ids(gd.nodes)
    ensures HasCode(diags, GR002) <==> |gd.nodes| > 1 && exists id :: id in Ids(gd.nodes) && !Touched(Ends(gd.edges), id)
    ensures NoDup(Ids(gd.nodes)) ==> (HasCode(diags, GR004) <==> Closed(gd) && Cyclic(Links(gd)))
    ensures !HasErrors(diags) <==> !HasErrors(header) && !HasErrors(conditional) && Sound(gd)
  {
    hide NoDup, Touched, Cyclic, BelowCycle, Repeats;
    var duplicates, nodeIDs := CheckDuplicates(gd.nodes);
    var dangling := CheckEdgeRefs(gd.edges, nodeIDs);
    diags := header + duplicates + dangling;
    var entryDiags: seq<Diagnostic> := [];
    if gd.entry != "" && gd.entry !in nodeIDs {
      entryDiags := [Diagnostic(GR007, Error, gd.entry)];
    }
    diags := diags + entryDiags;
    var orphans := CheckOrphans(gd);
    diags := diags + orphans;
    OrphansReported(gd, orphans);
    var cycleDiags: seq<Diagnostic> := [];
    assert HasCode(diags, GR001) <==> dangling != [] by {
      if dangling != [] {
        assert dangling[0] in diags;
      }
    }
    if !HasCode(diags, GR001) {
      var cycle := DetectCycle(gd);
      if cycle.Some? {
        cycleDiags := [Diagnostic(GR004, Error, "")];
      }
    }
    diags := diags + cycleDiags + conditional;
    SplitCodes(header, duplicates, dangling, entryDiags, orphans, cycleDiags, conditional, diags);
  }

  /** Which part of the diagnostic list each code comes from. */
  lemma SplitCodes(header: seq<Diagnostic>, duplicates: seq<Diagnostic>, dangling: seq<Diagnostic>,
                   entryDiags: seq<Diagnostic>, orphans: seq<Diagnostic>, cycleDiags: seq<Diagnostic>,
                   conditional: seq<Diagnostic>, diags: seq<Diagnostic>)
    requires forall d :: d in header ==> d.code == GR010
    requires forall d :: d in duplicates ==> d.code == GR005 && d.severity == Error
    requires forall d :: d in dangling ==> d.code == GR001 && d.severity == Error
    requires forall d :: d in entryDiags ==> d.code == GR007 && d.severity == Error
    requires forall d :: d in orphans ==> d.code == GR002 && d.severity == Warning
    requires forall d :: d in cycleDiags ==> d.code == GR004 && d.severity == Error
    requires forall d :: d in conditional ==> d.code.Conditional?
    requires diags == header + duplicates + dangling + entryDiags + orphans + cycleDiags + conditional
    ensures HasCode(diags, GR005) <==> duplicates != []
    ensures HasCode(diags, GR001) <==> dangling != []
    ensures HasCode(diags, GR007) <==> entryDiags != []
    ensures HasCode(diags, GR002) <==> orphans != []
    ensures HasCode(diags, GR004) <==> cycleDiags != []
    ensures HasErrors(diags) <==> HasErrors(header) || HasErrors(conditional) || duplicates != []
                                  || dangling != [] || entryDiags != [] || cycleDiags != []
  {
    hide HasCode;
    forall d
      ensures d in diags <==> d in header || d in duplicates || d in dangling || d in entryDiags || d in orphans
                              || d in cycleDiags || d in conditional
    {
    }
    CodeOf(duplicates, diags, GR005);
    CodeOf(dangling, diags, GR001);
    CodeOf(entryDiags, diags, GR007);
    CodeOf(orphans, diags, GR002);
    CodeOf(cycleDiags, diags, GR004);
  }

  lemma CodeOf(part: seq<Diagnostic>, diags: seq<Diagnostic>, code: Code)
    requires forall d :: d in part ==> d in diags && d.code == code
    requires forall d :: d in diags && d.code == code ==> d in part
    ensures HasCode(diags, code) <==> part != []
    ensures part != [] ==> part[0] in diags
  {
    if part != [] {
      assert part[0] in part;
    }
  }

  /** How a caller turns a node definition into a live node: an error, or a node that may be nil. */
  type Factory = NodeDef -> Result<Option<Node>, string>

  datatype BuildError =
    | FactoryMissing
    | FactoryFailed(id: string, message: string)
    | NodeRejected(cause: GraphError)
    | EdgeRejected(cause: GraphError)
    | EntryRejected(cause: GraphError)

  ghost predicate AllMade(nodes: seq<NodeDef>, factory: Factory) {
    forall i :: 0 <= i < |nodes| ==> factory(nodes[i]).Ok? && factory(nodes[i]).value.Some?
  }

  ghost function MadeIds(nodes: seq<NodeDef>, factory: Factory): (ids: seq<string>)
    requires AllMade(nodes, factory)
    ensures |ids| == |nodes|
  {
    seq(|nodes|, i requires 0 <= i < |nodes| => factory(nodes[i]).value.value.id)
  }

  ghost function MadeNodes(nodes: seq<NodeDef>, factory: Factory): map<string, Node>
    requires AllMade(nodes, factory)
  {
    if nodes == [] then map[]
    else
      var made := factory(nodes[|nodes| - 1]).value.value;
      MadeNodes(nodes[..|nodes| - 1], factory)[made.id := made]
  }

  /** The edges a graph keeps: later copies of a node pair are dropped. */
  ghost function Distinct(ends: seq<Edge<string>>): seq<Edge<string>> {
    if ends == [] then []
    else
      var kept := Distinct(ends[..|ends| - 1]);
      if ends[|ends| - 1] in kept then kept else kept + [ends[|ends| - 1]]
  }

  lemma {:induction false} DistinctKeepsLinks(ends: seq<Edge<string>>)
    ensures EdgeSet(Distinct(ends)) == EdgeSet(ends)
    ensures NoDup(Distinct(ends))
  {
    if ends != [] {
      var e := ends[|ends| - 1];
      DistinctKeepsLinks(ends[..|ends| - 1]);
      assert ends == ends[..|ends| - 1] + [e];
      assert EdgeSet(ends) == EdgeSet(ends[..|ends| - 1]) + {e};
      ExtendNoDup(Distinct(ends[..|ends| - 1]), e);
    }
  }

  predicate HasInbound(gd: GraphDefinition, id: string) {
    exists i :: 0 <= i < |gd.edges| && gd.edges[i].target == id
  }

  /** The first node at or after position i without inbound edges, or "" when there is none. */
  function FirstSource(gd: GraphDefinition, i: nat): string
    requires i <= |gd.nodes|
    decreases |gd.nodes| - i
  {
    if i == |gd.nodes| then ""
    else if !HasInbound(gd, gd.nodes[i].id) then gd.nodes[i].id
    else FirstSource(gd, i + 1)
  }

  function DefaultEntry(gd: GraphDefinition): string
    requires |gd.nodes| > 0
  {
    if FirstSource(gd, 0) == "" then gd.nodes[0].id else FirstSource(gd, 0)
  }

  function ResolvedEntry(gd: GraphDefinition): string {
    if gd.entry == "" && |gd.nodes| > 0 then DefaultEntry(gd) else gd.entry
  }

  /** Exactly when a definition can be turned into a graph. */
  ghost predicate Buildable(gd: GraphDefinition, factory: Factory) {
    && AllMade(gd.nodes, factory)
    && NoDup(MadeIds(gd.nodes, factory))
    && (forall e :: e in Ends(gd.edges) ==> e.source in MadeIds(gd.nodes, factory) && e.target in MadeIds(gd.nodes, factory))
    && (ResolvedEntry(gd) == "" || ResolvedEntry(gd) in MadeIds(gd.nodes, factory))
  }

  /** The graph a buildable definition denotes. */
  ghost function Meaning(gd: GraphDefinition, factory: Factory): Graph
    requires AllMade(gd.nodes, factory)
  {
    Graph(MadeIds(gd.nodes, factory), MadeNodes(gd.nodes, factory), Distinct(Ends(gd.edges)), ResolvedEntry(gd))
  }

  lemma {:induction false} MadeNodesKeys(nodes: seq<NodeDef>, factory: Factory)
    requires AllMade(nodes, factory)
    ensures MadeNodes(nodes, factory).Keys == Elements(MadeIds(nodes, factory))
  {
    if nodes != [] {
      var n := |nodes| - 1;
      MadeNodesKeys(nodes[..n], factory);
      assert MadeIds(nodes, factory) == MadeIds(nodes[..n], factory) + [factory(nodes[n]).value.value.id];
    }
  }

  method InstantiateNodes(nodes: seq<NodeDef>, factory: Factory, g: BasicGraph) returns (err: Option<BuildError>)
    requires g.Valid() && g.View() == Graph([], map[], [], "")
    modifies g
    ensures g.Valid()
    ensures err.None? <==> AllMade(nodes, factory) && NoDup(MadeIds(nodes, factory))
    ensures err.None? ==> g.View() == Graph(MadeIds(nodes, factory), MadeNodes(nodes, factory), [], "")
  {
    hide Adjacent;
    hide Graph.WellFormed;
    var i := 0;
    while i < |nodes|
      invariant 0 <= i <= |nodes|
      invariant g.Valid()
      invariant AllMade(nodes[..i], factory)
      invariant g.View() == Graph(MadeIds(nodes[..i], factory), MadeNodes(nodes[..i], factory), [], "")
    {
      var made := factory(nodes[i]);
      assert nodes[..i + 1][..i] == nodes[..i];
      if made.Err? {
        return Some(FactoryFailed(nodes[i].id, made.error));
      }
      var rejected := g.AddNode(made.value);
      if rejected.Some? {
        if made.value.Some? && AllMade(nodes, factory) {
          RepeatedId(nodes, factory, i);
        }
        return Some(NodeRejected(rejected.value));
      }
      assert MadeIds(nodes[..i + 1], factory) == MadeIds(nodes[..i], factory) + [made.value.value.id];
      i := i + 1;
    }
    assert nodes[..i] == nodes;
    NodesAreDistinct(g.View());
    err := None;
  }

  lemma NodesAreDistinct(g: Graph)
    requires g.WellFormed()
    ensures NoDup(g.nodeOrder)
  {
  }

  lemma RepeatedId(nodes: seq<NodeDef>, factory: Factory, i: nat)
    requires i < |nodes| && AllMade(nodes, factory) && AllMade(nodes[..i], factory)
    requires factory(nodes[i]).value.value.id in MadeNodes(nodes[..i], factory)
    ensures !NoDup(MadeIds(nodes, factory))
  {
    MadeNodesKeys(nodes[..i], factory);
    var k :| 0 <= k < i && MadeIds(nodes[..i], factory)[k] == factory(nodes[i]).value.value.id;
    assert MadeIds(nodes, factory)[k] == MadeIds(nodes, factory)[i];
  }

  method WireEdges(edges: seq<EdgeDef>, g: BasicGraph) returns (err: Option<BuildError>)
    requires g.Valid() && g.edges == []
    modifies g
    ensures g.Valid()
    ensures err.None? <==> forall e :: e in Ends(edges) ==> e.source in old(g.nodes) && e.target in old(g.nodes)
    ensures err.None? ==> g.View() == old(g.View()).(edges := Distinct(Ends(edges)))
  {
    hide Adjacent;
    hide Graph.WellFormed;
    var ends := Ends(edges);
    var i := 0;
    while i < |edges|
      invariant 0 <= i <= |edges|
      invariant g.Valid()
      invariant forall k :: 0 <= k < i ==> ends[k].source in old(g.nodes) && ends[k].target in old(g.nodes)
      invariant g.View() == old(g.View()).(edges := Distinct(ends[..i]))
    {
      assert ends[i] in ends;
      var rejected := g.AddEdge(edges[i].source, edges[i].target);
      if rejected.Some? {
        return Some(EdgeRejected(rejected.value));
      }
      assert ends[..i + 1][..i] == ends[..i];
      i := i + 1;
    }
    assert ends[..i] == ends;
    err := None;
  }

  /**
   Builds the graph: instantiates the nodes, wires the edges and resolves the entry. Succeeds exactly
   on buildable definitions, and then yields the graph the definition denotes.
   */
  method ToGraph(gd: GraphDefinition, factory: Option<Factory>) returns (r: Result<BasicGraph, BuildError>)
    ensures r.Ok? <==> factory.Some? && Buildable(gd, factory.value)
    ensures r.Ok? ==> fresh(r.value) && r.value.Valid() && r.value.View() == Meaning(gd, factory.value)
  {
    hide Adjacent;
    hide Graph.WellFormed;
    if factory.None? {
      return Err(FactoryMissing);
    }
    var g := new BasicGraph();
    var err := InstantiateNodes(gd.nodes, factory.value, g);
    if err.Some? {
      return Err(err.value);
    }
    MadeNodesKeys(gd.nodes, factory.value);
    assert forall id :: id in g.nodes <==> id in MadeIds(gd.nodes, factory.value);
    err := WireEdges(gd.edges, g);
    if err.Some? {
      return Err(err.value);
    }
    var entry := ResolvedEntry(gd);
    if entry != "" {
      var rejected := g.SetEntry(entry);
      if rejected.Some? {
        return Err(EntryRejected(rejected.value));
      }
    }
    r := Ok(g);
  }

  ghost predicate PreservesIds(nodes: seq<NodeDef>, factory: Factory) {
    && AllMade(nodes, factory)
    && MadeIds(nodes, factory) == Ids(nodes)
  }

  /** Position k holds the first node at or after position i that nothing leads into; past the end, there is none. */
  ghost predicate IsFirstSource(gd: GraphDefinition, i: nat, k: nat) {
    && i <= k <= |gd.nodes|
    && (forall j :: i <= j < k ==> HasInbound(gd, gd.nodes[j].id))
    && (k < |gd.nodes| ==> !HasInbound(gd, gd.nodes[k].id))
  }

  lemma {:induction false} FirstSourceFound(gd: GraphDefinition, i: nat) returns (k: nat)
    requires i <= |gd.nodes|
    ensures IsFirstSource(gd, i, k)
    ensures FirstSource(gd, i) == if k < |gd.nodes| then gd.nodes[k].id else ""
    decreases |gd.nodes| - i
  {
    if i < |gd.nodes| && HasInbound(gd, gd.nodes[i].id) {
      k := FirstSourceFound(gd, i + 1);
    } else {
      k := i;
    }
  }

  /**
   A definition that passes validation builds under every ID-preserving factory; the graph has the
   same links and is acyclic. Without an explicit entry it starts at the first node nothing leads into,
   so the fall-back to the first node listed is taken only when that source has the empty ID.
   */
  lemma SoundDefinitionsBuild(gd: GraphDefinition, factory: Factory)
    requires Sound(gd) && PreservesIds(gd.nodes, factory)
    ensures Buildable(gd, factory)
    ensures Meaning(gd, factory).Links() == Links(gd)
    ensures !Cyclic(Meaning(gd, factory).Links())
    ensures gd.entry == "" && |gd.nodes| > 0 ==>
              exists k: nat :: IsFirstSource(gd, 0, k) && k < |gd.nodes|
                          && ResolvedEntry(gd) == gd.nodes[if gd.nodes[k].id == "" then 0 else k].id
  {
    DistinctKeepsLinks(Ends(gd.edges));
    if gd.entry == "" && |gd.nodes| > 0 {
      var k := FirstSourceFound(gd, 0);
      if k == |gd.nodes| {
        EnteredNodesCycle(gd);
      }
      assert Ids(gd.nodes)[k] == gd.nodes[k].id && Ids(gd.nodes)[0] == gd.nodes[0].id;
    }
  }

  lemma EnteredNodesCycle(gd: GraphDefinition)
    requires Closed(gd) && |gd.nodes| > 0
    requires forall j :: 0 <= j < |gd.nodes| ==> HasInbound(gd, gd.nodes[j].id)
    ensures Cyclic(Links(gd))
  {
    var pool := Elements(Ids(gd.nodes));
    forall w | w in pool
      ensures HasPredecessorIn(Links(gd), pool, w)
    {
      var k :| 0 <= k < |gd.nodes| && Ids(gd.nodes)[k] == w;
      var i :| 0 <= i < |gd.edges| && gd.edges[i].target == gd.nodes[k].id;
      assert Ends(gd.edges)[i] in Ends(gd.edges);
      assert Edge(gd.edges[i].source, w) in Links(gd);
    }
    assert Ids(gd.nodes)[0] in pool;
    NoSourceMeansCycle(Links(gd), pool, Ids(gd.nodes)[0]);
  }

  /** The whole pipeline: a definition without validation errors becomes a graph that sorts. */
  method BuildValidated(gd: GraphDefinition, header: seq<Diagnostic>, conditional: seq<Diagnostic>, factory: Factory)
    returns (diags: seq<Diagnostic>, order: seq<string>)
    requires forall d :: d in header ==> d.code == GR010
    requires forall d :: d in conditional ==> d.code.Conditional?
    requires PreservesIds(gd.nodes, factory)
    ensures !HasErrors(diags) ==> Elements(order) == Elements(Ids(gd.nodes)) && NoDup(order)
    ensures !HasErrors(diags) ==> EdgesPointForward(Links(gd), order)
  {
    diags := Validate(gd, header, conditional);
    order := [];
    if !HasErrors(diags) {
      SoundDefinitionsBuild(gd, factory);
      var built := ToGraph(gd, Some(factory));
      var sorted := built.value.TopologicalSort(false);
      order := sorted.value;
    }
  }
}
