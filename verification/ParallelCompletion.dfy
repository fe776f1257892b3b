/** The graphs with exactly-once execution also complete: no run is endless, and narrow ones cannot jam. */
module ParallelCompletion {
  import opened Sequences
  import opened Digraphs
  import opened ParallelRuntime
  import opened ParallelExactlyOnce
  import opened ParallelTermination

  lemma JoinedHasNoMergeCycle(c: Config)
    requires Joined(c)
    ensures !Cyclic(MergeLinks(c))
  {
    if Cyclic(MergeLinks(c)) {
      CyclicMonotone(MergeLinks(c), c.g.Links());
    }
  }

  /** No interleaving of such a run goes on for ever. */
  lemma JoinedRunsEnd(c: Config, actions: nat -> Action)
    requires Joined(c)
    ensures !Endless(c, actions)
  {
    JoinedHasNoMergeCycle(c);
    NoInfiniteRun(c, actions);
  }

  // ----- width

  /** A set of nodes that contains the predecessors of its members. */
  ghost predicate Closed(c: Config, done: set<string>) {
    && done <= c.g.nodes.Keys
    && forall p, n :: Edge(p, n) in c.g.Links() && n in done ==> p in done
  }

  ghost predicate Unblocked(c: Config, done: set<string>, n: string) {
    n !in done && forall p :: Edge(p, n) in c.g.Links() ==> p in done
  }

  /** The nodes that can run once `done` has run. */
  ghost function Frontier(c: Config, done: set<string>): set<string> {
    set n | n in c.g.nodes.Keys && Unblocked(c, done, n)
  }

  /** However far a run has come, the nodes that can run next fit into the channels and the pool. */
  ghost predicate Narrow(c: Config) {
    forall done :: Closed(c, done) ==> |Frontier(c, done)| <= 5 * c.concurrency
  }

  /** Nodes of which none leads to another. */
  ghost predicate Independent(c: Config, nodes: set<string>) {
    && nodes <= c.g.nodes.Keys
    && forall a, b :: a in nodes && b in nodes ==> !ReachesPlus(c.g.Links(), a, b)
  }

  lemma FrontierIsIndependent(c: Config, done: set<string>)
    requires Closed(c, done)
    ensures Independent(c, Frontier(c, done))
  {
    var E := c.g.Links();
    forall a, b | a in Frontier(c, done) && b in Frontier(c, done)
      ensures !ReachesPlus(E, a, b)
    {
      if ReachesPlus(E, a, b) {
        var p :| PathFromTo(E, p, a, b) && |p| >= 2;
        SubPath(E, p, 0, |p| - 1);
        assert Edge(p[|p| - 2], p[|p| - 1]) in E;
        DownwardPath(c, done, p[0..|p| - 1]);
      }
    }
  }

  lemma {:induction false} DownwardPath(c: Config, done: set<string>, p: seq<string>)
    requires Closed(c, done) && IsPath(c.g.Links(), p) && p[|p| - 1] in done
    ensures p[0] in done
    decreases |p|
  {
    if |p| > 1 {
      PathTail(c.g.Links(), p);
      DownwardPath(c, done, p[1..]);
    }
  }

  /** What leads to one of the nodes. */
  ghost function Above(c: Config, nodes: set<string>): set<string> {
    set a | a in c.g.nodes.Keys && exists b :: b in nodes && ReachesPlus(c.g.Links(), a, b)
  }

  lemma IndependentIsFrontier(c: Config, nodes: set<string>)
    requires c.g.WellFormed() && Independent(c, nodes)
    ensures Closed(c, Above(c, nodes)) && nodes <= Frontier(c, Above(c, nodes))
  {
    var E, done := c.g.Links(), Above(c, nodes);
    forall p, n | Edge(p, n) in E && (n in done || n in nodes)
      ensures p in done
    {
      ReachesEdge(E, p, n);
      if n in done {
        var b :| b in nodes && ReachesPlus(E, n, b);
        PlusIsReaches(E, n, b);
        ReachesTransitive(E, p, n, b);
      }
      EndsAreNodes(c, p, n);
    }
  }

  lemma EndsAreNodes(c: Config, p: string, n: string)
    requires c.g.WellFormed() && Edge(p, n) in c.g.Links()
    ensures p in c.g.nodes.Keys && n in c.g.nodes.Keys
  {
  }

  /** A graph is narrow if and only if no more than 5 * concurrency of its nodes are independent of each other. */
  lemma NarrowIffWidth(c: Config)
    requires c.g.WellFormed()
    ensures Narrow(c) <==> forall nodes :: Independent(c, nodes) ==> |nodes| <= 5 * c.concurrency
  {
    if Narrow(c) {
      forall nodes | Independent(c, nodes)
        ensures |nodes| <= 5 * c.concurrency
      {
        IndependentIsFrontier(c, nodes);
        SubsetCardinality(nodes, Frontier(c, Above(c, nodes)));
      }
    } else {
      var done :| Closed(c, done) && |Frontier(c, done)| > 5 * c.concurrency;
      FrontierIsIndependent(c, done);
    }
  }

  lemma SmallIsNarrow(c: Config)
    requires |c.g.nodes| <= 5 * c.concurrency
    ensures Narrow(c)
  {
    forall done | Closed(c, done)
      ensures |Frontier(c, done)| <= 5 * c.concurrency
    {
      SubsetCardinality(Frontier(c, done), c.g.nodes.Keys);
    }
  }

  // ----- completion

  /** With a frontier that always fits, the engine never jams: a run that cannot go on has returned. */
  lemma NarrowGraphsComplete(c: Config, actions: seq<Action>)
    requires Joined(c) && Responsive(c) && Legal(c, actions) && Narrow(c)
    ensures Stuck(c, After(c, actions)) <==> After(c, actions).coordinator.Stopped?
  {
    hide Orderly, Balanced, Jammed, Stuck, Narrow;
    RunsStayOrderly(c, actions);
    RunsStayBalanced(c, actions);
    var s := After(c, actions);
    StuckMeansJammed(c, s);
    if Jammed(c, s) {
      JammedIsWide(c, s);
    }
  }

  lemma SmallGraphsComplete(c: Config, actions: seq<Action>)
    requires Joined(c) && Responsive(c) && Legal(c, actions)
    requires |c.g.nodes| <= 5 * c.concurrency
    ensures Stuck(c, After(c, actions)) <==> After(c, actions).coordinator.Stopped?
  {
    SmallIsNarrow(c);
    NarrowGraphsComplete(c, actions);
  }

  /** In a jam, everything outstanding and the node about to be pushed could run next. */
  lemma JammedIsWide(c: Config, s: State)
    requires Joined(c) && Orderly(c, s) && Balanced(c, s) && Jammed(c, s)
    ensures !Narrow(c)
  {
    var done, id := Elements(s.processed), s.coordinator.remaining[0];
    ProcessedIsClosed(c, s);
    NextIsFresh(c, s);
    PushedIsUnblocked(c, s);
    OutstandingCount(c, s);
    hide Conserved, Joined, Collecting, HopsMatch, EdgesPointForward, Tidy, NoDup, Pushes, Frontier, Closed, Narrow, Gated;
    var out := Elements(s.scheduled) - done;
    OutstandingIsUnblocked(c, s);
    assert id !in out;
    WideFrontier(c, done, out, id);
  }

  lemma OutstandingIsUnblocked(c: Config, s: State)
    requires Joined(c) && Gated(c, s)
    ensures Elements(s.scheduled) - Elements(s.processed) <= Frontier(c, Elements(s.processed))
  {
    hide Joined, Gated, Frontier;
    forall n | n in Elements(s.scheduled) - Elements(s.processed)
      ensures n in Frontier(c, Elements(s.processed))
    {
      ScheduledIsUnblocked(c, s, n);
    }
  }

  lemma WideFrontier(c: Config, done: set<string>, out: set<string>, id: string)
    requires Closed(c, done) && out <= Frontier(c, done) && id in Frontier(c, done) && id !in out
    requires |out| >= 5 * c.concurrency
    ensures !Narrow(c)
  {
    SubsetCardinality(out + {id}, Frontier(c, done));
  }

  lemma ProcessedIsClosed(c: Config, s: State)
    requires Joined(c) && Orderly(c, s)
    ensures Closed(c, Elements(s.processed))
    ensures Elements(s.processed) <= Elements(s.scheduled)
  {
    forall n | n in s.processed
      ensures n in s.scheduled
    {
      assert n in multiset(s.processed);
      assert n in multiset(s.scheduled);
    }
    forall p, n | Edge(p, n) in c.g.Links() && n in s.processed
      ensures p in s.processed
    {
      ScheduledAfterPredecessors(c, s, n, p);
    }
  }

  lemma ScheduledIsUnblocked(c: Config, s: State, n: string)
    requires Joined(c) && Gated(c, s) && n in s.scheduled && n !in s.processed
    ensures n in Frontier(c, Elements(s.processed))
  {
    forall p | Edge(p, n) in c.g.Links()
      ensures p in Elements(s.processed)
    {
      ScheduledAfterPredecessors(c, s, n, p);
    }
  }

  lemma PushedIsUnblocked(c: Config, s: State)
    requires Joined(c) && Orderly(c, s) && WantsToPush(c, s)
    ensures s.coordinator.remaining[0] in Frontier(c, Elements(s.processed))
  {
    var id, s' := s.coordinator.remaining[0], DoSchedule(c, s);
    NextIsFresh(c, s);
    ScheduleAdvances(c, s);
    PushedWhenComplete(c, s, s');
    hide Orderly, Joined, CollectsOnly, DoSchedule, Pushes;
    forall p | Edge(p, id) in c.g.Links()
      ensures p in Elements(s.processed)
    {
      assert Delivered(c, s', p, id);
    }
  }

  lemma OutstandingCount(c: Config, s: State)
    requires Conserved(s) && NoDup(s.scheduled) && NoDup(s.processed)
    requires Elements(s.processed) <= Elements(s.scheduled)
    ensures |Elements(s.scheduled) - Elements(s.processed)| == Outstanding(s)
  {
    ElementsCardinality(s.scheduled);
    ElementsCardinality(s.processed);
    assert |multiset(s.scheduled)| == |s.scheduled| && |multiset(s.processed)| == |s.processed|;
    assert |multiset(NodesOf(s.workCh))| == |s.workCh|;
    assert |multiset(NodesOf(s.busy))| == |s.busy|;
    assert |multiset(NodesOf(s.resultCh))| == |s.resultCh|;
    assert Elements(s.scheduled) == (Elements(s.scheduled) - Elements(s.processed)) + Elements(s.processed);
  }
}
