/** Agent/task workflows and the strategy-specific validation rules. */
module AgentWorkflows {
  import opened Sequences
  import opened Digraphs
  import opened Kahn

  datatype ToolMode = FunctionCall | Standalone | NoTool

  datatype Agent = Agent(tools: seq<string>)

  /** One input parameter with the tasks its template refers to. */
  datatype Input = Input(param: string, refs: seq<string>)

  datatype Task = Task(agent: string, inputs: seq<Input>, context: seq<string>, humanReview: bool)

  datatype Dependencies = Dependencies(dependsOn: seq<string>, condition: string)

  datatype Workflow = Workflow(
    agents: map<string, Agent>,
    tasks: map<string, Task>,
    toolMode: string -> ToolMode,
    taskOrder: seq<string>,
    execution: Option<map<string, Dependencies>>)

  datatype Code = AT006 | AT007 | AT008 | AT013

  datatype Diagnostic = Diagnostic(code: Code, subject: string)

  /** AT-006: task_order must be present and list exactly the defined tasks; repeats are not noticed. */
  method ValidateSequential(wf: Workflow) returns (diags: seq<Diagnostic>)
    ensures diags == [] <==> wf.taskOrder != [] && Elements(wf.taskOrder) == wf.tasks.Keys
    ensures forall d :: d in diags ==> d.code == AT006
  {
    diags := [];
    if |wf.taskOrder| == 0 {
      return [Diagnostic(AT006, "")];
    }
    var ordered: set<string> := {};
    var i := 0;
    while i < |wf.taskOrder|
      invariant 0 <= i <= |wf.taskOrder|
      invariant ordered == Elements(wf.taskOrder[..i])
      invariant diags == [] <==> ordered <= wf.tasks.Keys
      invariant forall d :: d in diags ==> d.code == AT006
    {
      TakeNext(wf.taskOrder, i);
      ordered := ordered + {wf.taskOrder[i]};
      if wf.taskOrder[i] !in wf.tasks {
        diags := diags + [Diagnostic(AT006, wf.taskOrder[i])];
      }
      i := i + 1;
    }
    assert wf.taskOrder[..i] == wf.taskOrder;
    var unseen := wf.tasks.Keys;
    while unseen != {}
      invariant unseen <= wf.tasks.Keys
      invariant diags == [] <==> ordered <= wf.tasks.Keys && wf.tasks.Keys - unseen <= ordered
      invariant forall d :: d in diags ==> d.code == AT006
      decreases unseen
    {
      var id :| id in unseen;
      unseen := unseen - {id};
      if id !in ordered {
        diags := diags + [Diagnostic(AT006, id)];
      }
    }
  }

  // ----- custom strategy

  /** The declared dependencies on defined tasks, dependency first. */
  ghost function DeclaredLinks(tasks: set<string>, execution: map<string, Dependencies>): set<Edge<string>> {
    set id, dep | id in execution && dep in execution[id].dependsOn && dep in tasks :: Edge(dep, id)
  }

  /** Keys of execution.tasks that are no tasks but depend on one: the counting loop sees them too. */
  ghost function Strays(tasks: set<string>, execution: map<string, Dependencies>): set<string> {
    set e | e in DeclaredLinks(tasks, execution) && e.target !in tasks :: e.target
  }

  /** Tasks and strays on or below a dependency cycle. */
  ghost function Unresolvable(tasks: set<string>, execution: map<string, Dependencies>): set<string> {
    set id | id in tasks + Strays(tasks, execution) && BelowCycle(DeclaredLinks(tasks, execution), id)
  }

  /** When AT-007 is reported. */
  ghost predicate CycleReported(tasks: set<string>, execution: map<string, Dependencies>) {
    |Unresolvable(tasks, execution)| > |Strays(tasks, execution)|
  }

  ghost predicate AllResolved(tasks: set<string>, execution: map<string, Dependencies>) {
    forall id, dep :: id in execution && dep in execution[id].dependsOn ==> dep in tasks
  }

  ghost function TargetSet(E: seq<Edge<string>>): set<string> {
    set e | e in E :: e.target
  }

  /** Counters and successor lists for the edges seen so far; every task and every target has a counter. */
  ghost predicate Counting(tasks: set<string>, E: seq<Edge<string>>, inDegree: map<string, int>,
                           successors: map<string, seq<string>>)
  {
    && inDegree.Keys == tasks + TargetSet(E)
    && successors.Keys <= tasks
    && (forall e :: e in E ==> e.source in tasks)
    && Counted(E, inDegree, successors)
  }

  function WithCounter(inDegree: map<string, int>, id: string): map<string, int> {
    if id in inDegree then inDegree else inDegree[id := 0]
  }

  lemma CountDependency(tasks: set<string>, E: seq<Edge<string>>, inDegree: map<string, int>,
                        successors: map<string, seq<string>>, dep: string, id: string)
    requires Counting(tasks, E, inDegree, successors) && dep in tasks
    ensures Counting(tasks, E + [Edge(dep, id)],
                     WithCounter(inDegree, id)[id := WithCounter(inDegree, id)[id] + 1],
                     successors[dep := Lookup(successors, dep) + [id]])
  {
    hide Counted;
    StrayStartsAtZero(tasks, E, inDegree, successors, id);
    CountOne(E, WithCounter(inDegree, id), successors, Edge(dep, id));
    TargetSetAppend(E, Edge(dep, id));
  }

  lemma TargetSetAppend(E: seq<Edge<string>>, e: Edge<string>)
    ensures TargetSet(E + [e]) == TargetSet(E) + {e.target}
  {
    assert e in E + [e];
    forall t | t in TargetSet(E)
      ensures t in TargetSet(E + [e])
    {
      var e' :| e' in E && e'.target == t;
      assert e' in E + [e];
    }
  }

  lemma StrayStartsAtZero(tasks: set<string>, E: seq<Edge<string>>, inDegree: map<string, int>,
                          successors: map<string, seq<string>>, id: string)
    requires Counting(tasks, E, inDegree, successors)
    ensures Counted(E, WithCounter(inDegree, id), successors)
  {
    if id !in inDegree {
      forall e | e in E
        ensures e.source != id && e.target != id
      {
        assert e.target in TargetSet(E);
      }
      NoEdgesNoNeighbours(E, id);
    }
  }

  /** Counting the declared dependencies: the counters, the successor lists, the edges, and AT-008 per unknown one. */
  method CountDependencies(tasks: set<string>, execution: map<string, Dependencies>)
    returns (diags: seq<Diagnostic>, inDegree: map<string, int>, successors: map<string, seq<string>>,
             ghost E: seq<Edge<string>>)
    ensures Counting(tasks, E, inDegree, successors)
    ensures EdgeSet(E) == DeclaredLinks(tasks, execution)
    ensures forall d :: d in diags ==> d.code == AT008
    ensures diags == [] <==> AllResolved(tasks, execution)
  {
    diags, successors, E := [], map[], [];
    inDegree := map id | id in tasks :: 0;
    assert Counting(tasks, E, inDegree, successors);
    var unseen := execution.Keys;
    while unseen != {}
      invariant unseen <= execution.Keys
      invariant Counting(tasks, E, inDegree, successors)
      invariant EdgeSet(E) == DeclaredLinks(tasks, execution - unseen)
      invariant forall d :: d in diags ==> d.code == AT008
      invariant diags == [] <==> AllResolved(tasks, execution - unseen)
      decreases unseen
    {
      var id :| id in unseen;
      var more;
      more, inDegree, successors, E := CountTask(tasks, id, execution[id].dependsOn, inDegree, successors, E);
      OneMoreKey(tasks, execution, unseen, id);
      diags := diags + more;
      unseen := unseen - {id};
    }
    assert execution - {} == execution;
  }

  lemma OneMoreKey(tasks: set<string>, execution: map<string, Dependencies>, unseen: set<string>, id: string)
    requires id in unseen && id in execution
    ensures DeclaredLinks(tasks, execution - (unseen - {id}))
         == DeclaredLinks(tasks, execution - unseen)
            + set dep | dep in execution[id].dependsOn && dep in tasks :: Edge(dep, id)
    ensures AllResolved(tasks, execution - (unseen - {id})) <==>
              AllResolved(tasks, execution - unseen) && forall dep :: dep in execution[id].dependsOn ==> dep in tasks
  {
    var before, after := execution - unseen, execution - (unseen - {id});
    assert forall k :: k in after <==> k in before || k == id;
    assert forall k :: k in before ==> before[k] == execution[k];
    assert forall k :: k in after ==> after[k] == execution[k];
    if AllResolved(tasks, after) {
      forall k, dep | k in before && dep in before[k].dependsOn
        ensures dep in tasks
      {
        assert k in after && dep in after[k].dependsOn;
      }
      forall dep | dep in execution[id].dependsOn
        ensures dep in tasks
      {
        assert id in after && dep in after[id].dependsOn;
      }
    }
  }

  /** The dependencies of one key, in declaration order. */
  method CountTask(tasks: set<string>, id: string, dependsOn: seq<string>, inDegree0: map<string, int>,
                   successors0: map<string, seq<string>>, ghost E0: seq<Edge<string>>)
    returns (diags: seq<Diagnostic>, inDegree: map<string, int>, successors: map<string, seq<string>>,
             ghost E: seq<Edge<string>>)
    requires Counting(tasks, E0, inDegree0, successors0)
    ensures Counting(tasks, E, inDegree, successors)
    ensures EdgeSet(E) == EdgeSet(E0) + set dep | dep in dependsOn && dep in tasks :: Edge(dep, id)
    ensures forall d :: d in diags ==> d.code == AT008
    ensures diags == [] <==> forall dep :: dep in dependsOn ==> dep in tasks
  {
    hide Counting;
    diags, inDegree, successors, E := [], inDegree0, successors0, E0;
    var i := 0;
    while i < |dependsOn|
      invariant 0 <= i <= |dependsOn|
      invariant Counting(tasks, E, inDegree, successors)
      invariant EdgeSet(E) == EdgeSet(E0) + set dep | dep in dependsOn[..i] && dep in tasks :: Edge(dep, id)
      invariant forall d :: d in diags ==> d.code == AT008
      invariant diags == [] <==> forall dep :: dep in dependsOn[..i] ==> dep in tasks
    {
      var dep := dependsOn[i];
      TakeNext(dependsOn, i);
      assert forall d :: d in dependsOn[..i + 1] <==> d in dependsOn[..i] || d == dep;
      if dep !in tasks {
        diags := diags + [Diagnostic(AT008, dep)];
      } else {
        CountDependency(tasks, E, inDegree, successors, dep, id);
        successors := successors[dep := Lookup(successors, dep) + [id]];
        inDegree := WithCounter(inDegree, id);
        inDegree := inDegree[id := inDegree[id] + 1];
        assert EdgeSet(E + [Edge(dep, id)]) == EdgeSet(E) + {Edge(dep, id)};
        E := E + [Edge(dep, id)];
      }
      i := i + 1;
    }
    assert dependsOn[..i] == dependsOn;
  }

  /**
   AT-007, AT-008 and AT-013. The cycle check compares the number of nodes it could finish, strays included,
   with the number of tasks, so a cycle is reported exactly when more nodes are unresolvable than there
   are strays. Conditions are parsed only when the caller has a parser.
   */
  method ValidateCustom(wf: Workflow, parses: Option<string -> bool>) returns (diags: seq<Diagnostic>)
    ensures wf.execution.None? ==> diags == []
    ensures wf.execution.Some? ==>
              ((exists d :: d in diags && d.code == AT007) <==> CycleReported(wf.tasks.Keys, wf.execution.value))
    ensures wf.execution.Some? ==>
              ((exists d :: d in diags && d.code == AT008) <==> !AllResolved(wf.tasks.Keys, wf.execution.value))
    ensures wf.execution.Some? ==>
              forall id :: Diagnostic(AT013, id) in diags <==> BadCondition(wf.execution.value, parses, id)
  {
    hide Unresolvable, Strays, AllResolved, DeclaredLinks, BelowCycle, Prepared, SeededWithSources, Counted, NoDup;
    hide EdgesPointForward, TargetSet, BadCondition;
    if wf.execution.None? {
      return [];
    }
    var tasks, execution := wf.tasks.Keys, wf.execution.value;
    var inDegree, successors;
    ghost var E;
    diags, inDegree, successors, E := CountDependencies(tasks, execution);
    var queue := CollectTaskSources(tasks, inDegree);
    CountingPrepared(tasks, E, inDegree, successors, queue);
    var order, _ := Drain(E, inDegree, successors, queue);
    FinishedCount(tasks, execution, E, inDegree.Keys, order);
    ghost var refs := diags;
    if |order| < |wf.tasks| {
      diags := diags + [Diagnostic(AT007, "")];
    }
    var conditions := CheckConditions(execution, parses);
    diags := diags + conditions;
    ThreeKinds(refs, |order| < |wf.tasks|, conditions, diags);
  }

  /** The task has a condition that the parser refuses. */
  ghost predicate BadCondition(execution: map<string, Dependencies>, parses: Option<string -> bool>, id: string) {
    id in execution && execution[id].condition != "" && parses.Some? && !parses.value(execution[id].condition)
  }

  /** AT-013: a diagnostic per task whose condition does not parse. */
  method CheckConditions(execution: map<string, Dependencies>, parses: Option<string -> bool>)
    returns (diags: seq<Diagnostic>)
    ensures forall d :: d in diags ==> d.code == AT013
    ensures forall id :: Diagnostic(AT013, id) in diags <==> BadCondition(execution, parses, id)
  {
    diags := [];
    var unseen := execution.Keys;
    while unseen != {}
      invariant unseen <= execution.Keys
      invariant forall d :: d in diags ==> d.code == AT013
      invariant forall id :: Diagnostic(AT013, id) in diags <==> id !in unseen && BadCondition(execution, parses, id)
      decreases unseen
    {
      var id :| id in unseen;
      unseen := unseen - {id};
      if execution[id].condition != "" && parses.Some? && !parses.value(execution[id].condition) {
        diags := diags + [Diagnostic(AT013, id)];
      }
    }
  }

  lemma ThreeKinds(refs: seq<Diagnostic>, cycle: bool, conditions: seq<Diagnostic>, diags: seq<Diagnostic>)
    requires forall d :: d in refs ==> d.code == AT008
    requires forall d :: d in conditions ==> d.code == AT013
    requires diags == refs + (if cycle then [Diagnostic(AT007, "")] else []) + conditions
    ensures (exists d :: d in diags && d.code == AT007) <==> cycle
    ensures (exists d :: d in diags && d.code == AT008) <==> refs != []
    ensures forall id :: Diagnostic(AT013, id) in diags <==> Diagnostic(AT013, id) in conditions
  {
    if cycle {
      assert diags[|refs|] in diags;
    }
    if refs != [] {
      assert diags[0] in diags && refs[0] in refs;
    }
  }

  /** Tasks without counted dependencies, in any order. */
  method CollectTaskSources(tasks: set<string>, inDegree: map<string, int>) returns (queue: seq<string>)
    requires tasks <= inDegree.Keys
    ensures NoDup(queue)
    ensures forall id :: id in queue <==> id in tasks && inDegree[id] == 0
  {
    queue := [];
    var unseen := tasks;
    while unseen != {}
      invariant unseen <= tasks && NoDup(queue)
      invariant forall id :: id in queue <==> id in tasks && id !in unseen && inDegree[id] == 0
      decreases unseen
    {
      var id :| id in unseen;
      unseen := unseen - {id};
      if inDegree[id] == 0 {
        ExtendNoDup(queue, id);
        queue := queue + [id];
      }
    }
  }

  lemma CountingPrepared(tasks: set<string>, E: seq<Edge<string>>, inDegree: map<string, int>,
                         successors: map<string, seq<string>>, queue: seq<string>)
    requires Counting(tasks, E, inDegree, successors)
    requires forall id :: id in queue <==> id in tasks && id in inDegree && inDegree[id] == 0
    ensures Prepared(E, inDegree, successors) && SeededWithSources(inDegree, queue)
  {
    forall e | e in E
      ensures e.source in inDegree && e.target in inDegree
    {
      assert e.target in TargetSet(E);
    }
    forall v | v in inDegree
      ensures inDegree[v] == OpenEdges(E, v, {})
      ensures v in queue <==> inDegree[v] == 0
    {
      OpenEdgesInitially(E, v);
      if v !in tasks {
        var e :| e in E && e.target == v;
        TargetsMembership(E, e.source, v);
      }
    }
  }

  lemma FinishedCount(tasks: set<string>, execution: map<string, Dependencies>, E: seq<Edge<string>>,
                      keys: set<string>, order: seq<string>)
    requires EdgeSet(E) == DeclaredLinks(tasks, execution) && keys == tasks + TargetSet(E)
    requires NoDup(order) && forall v :: v in order <==> v in keys && !BelowCycle(EdgeSet(E), v)
    ensures |order| < |tasks| <==> CycleReported(tasks, execution)
  {
    var strays, stuck := Strays(tasks, execution), Unresolvable(tasks, execution);
    StraysAreTargets(tasks, execution, E);
    ElementsCardinality(order);
    assert stuck == set id | id in tasks + strays && BelowCycle(EdgeSet(E), id);
    hide Strays, Unresolvable, DeclaredLinks, BelowCycle, TargetSet, NoDup;
    assert keys == tasks + strays;
    assert Elements(order) == keys - stuck;
    SplitCounts(tasks, strays, keys, stuck);
  }

  lemma SplitCounts(tasks: set<string>, strays: set<string>, keys: set<string>, stuck: set<string>)
    requires keys == tasks + strays && tasks !! strays && stuck <= keys
    ensures |keys - stuck| < |tasks| <==> |stuck| > |strays|
  {
    assert |keys| == |tasks| + |strays|;
    assert keys == (keys - stuck) + stuck;
    assert |keys| == |keys - stuck| + |stuck|;
  }

  lemma StraysAreTargets(tasks: set<string>, execution: map<string, Dependencies>, E: seq<Edge<string>>)
    requires EdgeSet(E) == DeclaredLinks(tasks, execution)
    ensures Strays(tasks, execution) == TargetSet(E) - tasks
  {
    hide DeclaredLinks;
    forall t
      ensures t in TargetSet(E) && t !in tasks <==> t in Strays(tasks, execution)
    {
      if t in TargetSet(E) && t !in tasks {
        var e :| e in E && e.target == t;
        assert e in EdgeSet(E);
      }
      if t in Strays(tasks, execution) {
        var e :| e in DeclaredLinks(tasks, execution) && e.target == t && e.target !in tasks;
        assert e in EdgeSet(E);
      }
    }
  }

  // ----- what the cycle check promises

  lemma NoStraysWhenDefined(tasks: set<string>, execution: map<string, Dependencies>)
    requires execution.Keys <= tasks
    ensures Strays(tasks, execution) == {}
  {
  }

  lemma CycleMeansUnresolvable(tasks: set<string>, execution: map<string, Dependencies>)
    ensures Cyclic(DeclaredLinks(tasks, execution)) <==> Unresolvable(tasks, execution) != {}
  {
    var links := DeclaredLinks(tasks, execution);
    if Cyclic(links) {
      var v :| ReachesPlus(links, v, v);
      var p :| PathFromTo(links, p, v, v) && |p| >= 2;
      assert Edge(p[0], p[1]) in links;
      ReachesSelf(links, v);
      assert v in Unresolvable(tasks, execution);
    } else {
      CyclicIffBelowCycle(links);
    }
  }

  /**
   AT-007 never cries wolf, and misses a cycle only when strays exist: when every key of
   execution.tasks that depends on a task is a task itself, it is reported exactly on cyclic dependencies.
   */
  lemma CycleReportExact(tasks: set<string>, execution: map<string, Dependencies>)
    ensures CycleReported(tasks, execution) ==> Cyclic(DeclaredLinks(tasks, execution))
    ensures Strays(tasks, execution) == {} ==>
              (CycleReported(tasks, execution) <==> Cyclic(DeclaredLinks(tasks, execution)))
    ensures execution.Keys <= tasks ==> Strays(tasks, execution) == {}
  {
    CycleMeansUnresolvable(tasks, execution);
    if execution.Keys <= tasks {
      NoStraysWhenDefined(tasks, execution);
    }
  }

  /** Tasks a and b depend on each other; undefined keys x and y depend on task c. */
  ghost function HiddenCycle(a: string, b: string, c: string, x: string, y: string): map<string, Dependencies> {
    map[a := Dependencies([b], ""), b := Dependencies([a], ""), x := Dependencies([c], ""), y := Dependencies([c], "")]
  }

  lemma FiveDifferent(a: string, b: string, c: string, x: string, y: string)
    requires NoDup([a, b, c, x, y])
    ensures a != b && a != c && a != x && a != y && b != c && b != x && b != y && c != x && c != y && x != y
  {
    var ids := [a, b, c, x, y];
    assert ids[0] != ids[1] && ids[0] != ids[2] && ids[0] != ids[3] && ids[0] != ids[4] && ids[1] != ids[2]
      && ids[1] != ids[3] && ids[1] != ids[4] && ids[2] != ids[3] && ids[2] != ids[4] && ids[3] != ids[4];
  }

  lemma HiddenCycleLinks(a: string, b: string, c: string, x: string, y: string)
    requires NoDup([a, b, c, x, y])
    ensures DeclaredLinks({a, b, c}, HiddenCycle(a, b, c, x, y)) == {Edge(b, a), Edge(a, b), Edge(c, x), Edge(c, y)}
    ensures Strays({a, b, c}, HiddenCycle(a, b, c, x, y)) == {x, y}
  {
    FiveDifferent(a, b, c, x, y);
    hide NoDup;
    var execution := HiddenCycle(a, b, c, x, y);
    var links := DeclaredLinks({a, b, c}, execution);
    assert Edge(b, a) in links && Edge(a, b) in links && Edge(c, x) in links && Edge(c, y) in links;
    assert links == {Edge(b, a), Edge(a, b), Edge(c, x), Edge(c, y)};
    assert Edge(c, x).target == x && Edge(c, y).target == y;
    assert x in Strays({a, b, c}, execution) && y in Strays({a, b, c}, execution);
  }

  lemma RestPointsForward(links: set<Edge<string>>, a: string, b: string, c: string, x: string, y: string)
    requires links == {Edge(b, a), Edge(a, b), Edge(c, x), Edge(c, y)} && NoDup([a, b, c, x, y])
    ensures NoDup([c, x, y]) && EdgesPointForward(links, [c, x, y])
  {
    FiveDifferent(a, b, c, x, y);
    var order := [c, x, y];
    assert order[..1] == [c] && order[..2] == [c, x];
  }

  /** The cycle check can be fooled: here the dependencies are cyclic, yet two strays make up for the two stuck tasks. */
  lemma StraysHideACycle(a: string, b: string, c: string, x: string, y: string)
    requires NoDup([a, b, c, x, y])
    ensures Cyclic(DeclaredLinks({a, b, c}, HiddenCycle(a, b, c, x, y)))
    ensures !CycleReported({a, b, c}, HiddenCycle(a, b, c, x, y))
  {
    var execution := HiddenCycle(a, b, c, x, y);
    var links := DeclaredLinks({a, b, c}, execution);
    HiddenCycleLinks(a, b, c, x, y);
    FiveDifferent(a, b, c, x, y);
    RestPointsForward(links, a, b, c, x, y);
    assert PathFromTo(links, [a, b, a], a, a);
    assert ReachesPlus(links, a, a);
    hide DeclaredLinks, Strays, HiddenCycle, NoDup, EdgesPointForward;
    forall id | id in Unresolvable({a, b, c}, execution)
      ensures id in {a, b}
    {
      if id in [c, x, y] {
        ForwardListingAvoidsCycles(links, [c, x, y], id);
      }
      assert id == c || id == x || id == y ==> id in [c, x, y];
    }
    SubsetCardinality(Unresolvable({a, b, c}, execution), {a, b});
  }
}
