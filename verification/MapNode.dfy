/** The map node: item by item in order, or by a pool of workers fed through a bounded channel. */
module MapNodes {
  import opened Sequences

  /** A pure mapper: a result for an item and its index, or none when it fails. */
  type Mapper<!A, !B> = (A, nat) -> Option<B>

  /** What every item maps to; a failed item maps to nil. */
  function Mapped<A, B>(items: seq<A>, mapper: Mapper<A, B>): (results: seq<Option<B>>)
    ensures |results| == |items|
  {
    seq(|items|, i requires 0 <= i < |items| => mapper(items[i], i))
  }

  predicate Fails<A, B>(items: seq<A>, mapper: Mapper<A, B>, i: nat)
    requires i < |items|
  {
    mapper(items[i], i).None?
  }

  /** i fails and nothing before it does. */
  ghost predicate IsFirstFailure<A, B>(items: seq<A>, mapper: Mapper<A, B>, i: nat) {
    i < |items| && Fails(items, mapper, i) && forall k :: 0 <= k < i ==> !Fails(items, mapper, k)
  }

  /** One item after the other; stops at the first failure unless errors are tolerated. */
  method MapSequential<A, B>(items: seq<A>, mapper: Mapper<A, B>, continueOnError: bool)
    returns (results: array<Option<B>>, error: Option<nat>)
    ensures error.Some? <==> !continueOnError && exists i :: 0 <= i < |items| && Fails(items, mapper, i)
    ensures error.Some? ==> IsFirstFailure(items, mapper, error.value)
    ensures error.None? ==> results[..] == Mapped(items, mapper)
  {
    results := new Option<B>[|items|](_ => None);
    var i := 0;
    while i < |items|
      invariant 0 <= i <= |items|
      invariant forall k :: 0 <= k < |items| ==> results[k] == if k < i then mapper(items[k], k) else None
      invariant !continueOnError ==> forall k :: 0 <= k < i ==> !Fails(items, mapper, k)
    {
      var result := mapper(items[i], i);
      if result.None? {
        if !continueOnError {
          assert Fails(items, mapper, i);
          return results, Some(i);
        }
        results[i] := None;
      } else {
        results[i] := result;
      }
      i := i + 1;
    }
    error := None;
  }

  // ----- the worker pool

  datatype Job<!A, !B> = Job(items: seq<A>, mapper: Mapper<A, B>, continueOnError: bool, concurrency: nat)

  /**
   Items submitted so far, the work channel, the items being processed, how many workers wait or have
   returned, and the shared results. `processed` lists the processed items in order.
   */
  datatype Pool<B> = Pool(
    submitted: nat,
    channel: seq<nat>,
    closed: bool,
    busy: set<nat>,
    idle: nat,
    gone: nat,
    processed: seq<nat>,
    results: seq<Option<B>>,
    firstErr: Option<nat>,
    cancelled: bool)

  datatype PoolAction = Submit | StopSubmitting | CloseChannel | Take | Finish(index: nat) | Return

  ghost function PoolStart<A, B>(job: Job<A, B>): Pool<B> {
    Pool(0, [], false, {}, job.concurrency, 0, [], seq(|job.items|, _ => None), None, false)
  }

  ghost predicate PoolEnabled<A, B>(job: Job<A, B>, s: Pool<B>, a: PoolAction) {
    match a
    case Submit => !s.closed && s.submitted < |job.items| && |s.channel| < job.concurrency
    case StopSubmitting => !s.closed && s.submitted < |job.items| && s.cancelled
    case CloseChannel => !s.closed && s.submitted == |job.items|
    case Take => s.idle > 0 && s.channel != []
    case Finish(i) => i in s.busy && i < |job.items| && |s.results| == |job.items|
    case Return => s.idle > 0 && (s.cancelled || (s.closed && s.channel == []))
  }

  /** A worker ends its item: a result, a tolerated failure, or the failure that cancels the pool. */
  ghost function FinishItem<A, B>(job: Job<A, B>, s: Pool<B>, i: nat): Pool<B>
    requires i < |job.items| == |s.results|
  {
    var s' := s.(busy := s.busy - {i}, idle := s.idle + 1, processed := s.processed + [i]);
    var result := job.mapper(job.items[i], i);
    if result.None? && !job.continueOnError then
      if s.firstErr.None? then s'.(firstErr := Some(i), cancelled := true) else s'
    else s'.(results := s.results[i := result])
  }

  ghost function PoolStep<A, B>(job: Job<A, B>, s: Pool<B>, a: PoolAction): Pool<B>
    requires PoolEnabled(job, s, a)
  {
    match a
    case Submit => s.(submitted := s.submitted + 1, channel := s.channel + [s.submitted])
    case StopSubmitting => s.(closed := true)
    case CloseChannel => s.(closed := true)
    case Take => s.(channel := s.channel[1..], busy := s.busy + {s.channel[0]}, idle := s.idle - 1)
    case Finish(i) => FinishItem(job, s, i)
    case Return => s.(idle := s.idle - 1, gone := s.gone + 1)
  }

  /** The shared state of submitter and workers; each method is one of their steps. */
  class WorkerPool<A, B(0)> {
    const job: Job<A, B>
    const results: array<Option<B>>
    var submitted: nat
    var channel: seq<nat>
    var closed: bool
    var busy: set<nat>
    var idle: nat
    var gone: nat
    var firstErr: Option<nat>
    var cancelled: bool
    ghost var processed: seq<nat>

    ghost function View(): Pool<B>
      reads this, results
    {
      Pool(submitted, channel, closed, busy, idle, gone, processed, results[..], firstErr, cancelled)
    }

    constructor (job: Job<A, B>)
      ensures this.job == job && fresh(results) && View() == PoolStart(job)
    {
      this.job := job;
      results := new Option<B>[|job.items|](_ => None);
      submitted, channel, closed, busy, idle, gone := 0, [], false, {}, job.concurrency, 0;
      firstErr, cancelled, processed := None, false, [];
    }

    /** Whether a step is possible now. */
    method CanStep(a: PoolAction) returns (ok: bool)
      ensures ok <==> PoolEnabled(job, View(), a)
    {
      match a
      case Submit => return !closed && submitted < |job.items| && |channel| < job.concurrency;
      case StopSubmitting => return !closed && submitted < |job.items| && cancelled;
      case CloseChannel => return !closed && submitted == |job.items|;
      case Take => return idle > 0 && channel != [];
      case Finish(i) => return i in busy && i < |job.items| && results.Length == |job.items|;
      case Return => return idle > 0 && (cancelled || (closed && channel == []));
    }

    method SubmitNext()
      requires PoolEnabled(job, View(), Submit)
      modifies this
      ensures View() == PoolStep(job, old(View()), Submit)
    {
      channel, submitted := channel + [submitted], submitted + 1;
    }

    /** After the last item, or once the pool is cancelled. */
    method CloseWork(ghost a: PoolAction)
      requires (a.StopSubmitting? || a.CloseChannel?) && PoolEnabled(job, View(), a)
      modifies this`closed
      ensures View() == PoolStep(job, old(View()), a)
    {
      closed := true;
    }

    method TakeItem() returns (i: nat)
      requires PoolEnabled(job, View(), Take)
      modifies this
      ensures View() == PoolStep(job, old(View()), Take)
    {
      i := channel[0];
      channel, busy, idle := channel[1..], busy + {i}, idle - 1;
    }

    /** Records a result, a tolerated failure, or, once, the failure that cancels the pool. */
    method RecordResult(i: nat)
      requires PoolEnabled(job, View(), Finish(i))
      modifies this, results
      ensures View() == PoolStep(job, old(View()), Finish(i))
    {
      var result := job.mapper(job.items[i], i);
      if result.None? && !job.continueOnError {
        if firstErr.None? {
          firstErr, cancelled := Some(i), true;
        }
      } else {
        results[i] := result;
      }
      busy, idle := busy - {i}, idle + 1;
      processed := processed + [i];
    }

    method WorkerReturns()
      requires PoolEnabled(job, View(), Return)
      modifies this
      ensures View() == PoolStep(job, old(View()), Return)
    {
      idle, gone := idle - 1, gone + 1;
    }
  }

  ghost predicate PoolLegal<A, B>(job: Job<A, B>, actions: seq<PoolAction>)
    decreases |actions|, 0
  {
    actions == [] ||
    (var front := actions[..|actions| - 1];
     PoolLegal(job, front) && PoolEnabled(job, PoolPlay(job, front), actions[|actions| - 1]))
  }

  ghost function PoolPlay<A, B>(job: Job<A, B>, actions: seq<PoolAction>): Pool<B>
    requires PoolLegal(job, actions)
    decreases |actions|
  {
    if actions == [] then PoolStart(job)
    else PoolStep(job, PoolPlay(job, actions[..|actions| - 1]), actions[|actions| - 1])
  }

  /** The submitter is done and every worker has returned. */
  ghost predicate Finished<B>(s: Pool<B>) {
    s.closed && s.busy == {} && s.idle == 0
  }

  // ----- invariants

  /** Every submitted item is in the channel, in order, or has been taken: it is being processed or was, once. */
  ghost predicate Conserved<A, B>(job: Job<A, B>, s: Pool<B>) {
    && |s.channel| <= s.submitted <= |job.items| == |s.results|
    && (forall k :: 0 <= k < |s.channel| ==> s.channel[k] == s.submitted - |s.channel| + k)
    && (forall i: nat :: i in s.busy || i in s.processed <==> i < s.submitted - |s.channel|)
    && (forall i :: i in s.busy ==> i !in s.processed)
    && NoDup(s.processed)
  }

  ghost predicate Correct<A, B>(job: Job<A, B>, s: Pool<B>) {
    && |s.results| == |job.items|
    && (forall i :: 0 <= i < |job.items| ==>
          s.results[i] == if i in s.processed then job.mapper(job.items[i], i) else None)
    && (s.cancelled <==> s.firstErr.Some?)
    && (s.firstErr.Some? ==>
          !job.continueOnError && s.firstErr.value < |job.items| && s.firstErr.value in s.processed
          && Fails(job.items, job.mapper, s.firstErr.value))
    && (s.firstErr.None? && !job.continueOnError ==>
          forall i :: i in s.processed && i < |job.items| ==> !Fails(job.items, job.mapper, i))
  }

  /** Workers are conserved, and without cancellation nobody stops early. */
  ghost predicate Staffed<A, B>(job: Job<A, B>, s: Pool<B>) {
    && |s.busy| + s.idle + s.gone == job.concurrency
    && (s.closed && !s.cancelled ==> s.submitted == |job.items|)
    && (s.gone > 0 && !s.cancelled ==> s.closed && s.channel == [])
  }

  lemma ConservedStep<A, B>(job: Job<A, B>, s: Pool<B>, a: PoolAction)
    requires Conserved(job, s) && PoolEnabled(job, s, a)
    ensures Conserved(job, PoolStep(job, s, a))
  {
    if a.Finish? {
      ExtendNoDup(s.processed, a.index);
    }
  }

  lemma CorrectStep<A, B>(job: Job<A, B>, s: Pool<B>, a: PoolAction)
    requires Conserved(job, s) && Correct(job, s) && PoolEnabled(job, s, a)
    ensures Correct(job, PoolStep(job, s, a))
  {
  }

  lemma StaffedStep<A, B>(job: Job<A, B>, s: Pool<B>, a: PoolAction)
    requires Conserved(job, s) && Staffed(job, s) && PoolEnabled(job, s, a)
    ensures Staffed(job, PoolStep(job, s, a))
  {
    if a.Take? {
      TakenIsNew(job, s);
    }
    hide Conserved;
  }

  lemma {:induction false} PoolInvariant<A, B>(job: Job<A, B>, actions: seq<PoolAction>)
    requires PoolLegal(job, actions)
    ensures Conserved(job, PoolPlay(job, actions))
    ensures Correct(job, PoolPlay(job, actions))
    ensures Staffed(job, PoolPlay(job, actions))
  {
    if actions != [] {
      var front, a := actions[..|actions| - 1], actions[|actions| - 1];
      PoolInvariant(job, front);
      hide Conserved, Correct, Staffed;
      ConservedStep(job, PoolPlay(job, front), a);
      CorrectStep(job, PoolPlay(job, front), a);
      StaffedStep(job, PoolPlay(job, front), a);
    }
  }

  // ----- refinement

  /** No item is ever processed twice, and an item's result is only ever its own. */
  lemma ProcessedOnce<A, B>(job: Job<A, B>, actions: seq<PoolAction>)
    requires PoolLegal(job, actions)
    ensures NoDup(PoolPlay(job, actions).processed)
    ensures forall i :: i in PoolPlay(job, actions).processed ==> i < |job.items|
  {
    PoolInvariant(job, actions);
  }

  /**
   A finished pool fails exactly when the sequential map does, naming some failing item; otherwise it
   has processed every item exactly once and holds exactly the sequential results.
   */
  lemma PoolRefinesSequential<A, B>(job: Job<A, B>, actions: seq<PoolAction>)
    requires job.concurrency >= 1
    requires PoolLegal(job, actions) && Finished(PoolPlay(job, actions))
    ensures var s := PoolPlay(job, actions);
            && (s.firstErr.Some? <==> !job.continueOnError && exists i :: 0 <= i < |job.items| && Fails(job.items, job.mapper, i))
            && (s.firstErr.Some? ==> s.firstErr.value < |job.items| && Fails(job.items, job.mapper, s.firstErr.value))
            && (s.firstErr.None? ==> s.results == Mapped(job.items, job.mapper))
            && (s.firstErr.None? ==> NoDup(s.processed) && forall i: nat :: i in s.processed <==> i < |job.items|)
  {
    PoolInvariant(job, actions);
  }

  // ----- progress

  /** Work left: items to submit, to take, to process, workers to return, and the close. */
  ghost function WorkLeft<A, B>(job: Job<A, B>, s: Pool<B>): int {
    4 * (|job.items| - s.submitted) + 3 * |s.channel| + 3 * |s.busy| + s.idle + if s.closed then 0 else 1
  }

  lemma WorkShrinks<A, B>(job: Job<A, B>, s: Pool<B>, a: PoolAction)
    requires Conserved(job, s) && PoolEnabled(job, s, a)
    ensures WorkLeft(job, PoolStep(job, s, a)) < WorkLeft(job, s)
  {
    if a.Take? {
      TakenIsNew(job, s);
    }
    hide Conserved;
  }

  lemma TakenIsNew<A, B>(job: Job<A, B>, s: Pool<B>)
    requires Conserved(job, s) && s.channel != []
    ensures s.channel[0] !in s.busy && |s.busy + {s.channel[0]}| == |s.busy| + 1
  {
  }

  /** Every run ends: its length is bounded by the work at hand. */
  lemma {:induction false} PoolTerminates<A, B>(job: Job<A, B>, actions: seq<PoolAction>)
    requires PoolLegal(job, actions)
    ensures |actions| + WorkLeft(job, PoolPlay(job, actions)) <= 4 * |job.items| + job.concurrency + 1
    ensures WorkLeft(job, PoolPlay(job, actions)) >= 0
  {
    if actions != [] {
      var front, a := actions[..|actions| - 1], actions[|actions| - 1];
      PoolTerminates(job, front);
      PoolInvariant(job, front);
      WorkShrinks(job, PoolPlay(job, front), a);
    }
    PoolInvariant(job, actions);
  }

  /** An unfinished pool can always take a step. */
  lemma PoolNeverSticks<A, B>(job: Job<A, B>, actions: seq<PoolAction>)
    requires job.concurrency >= 1
    requires PoolLegal(job, actions) && !Finished(PoolPlay(job, actions))
    ensures exists a :: PoolEnabled(job, PoolPlay(job, actions), a)
  {
    PoolInvariant(job, actions);
    var s := PoolPlay(job, actions);
    if s.busy != {} {
      var i :| i in s.busy;
      assert PoolEnabled(job, s, Finish(i));
    } else if s.idle > 0 && s.channel != [] {
      assert PoolEnabled(job, s, Take);
    } else if s.idle > 0 && s.closed {
      assert PoolEnabled(job, s, Return);
    } else if s.submitted == |job.items| {
      assert PoolEnabled(job, s, CloseChannel);
    } else if s.cancelled {
      assert PoolEnabled(job, s, StopSubmitting);
    } else {
      assert PoolEnabled(job, s, Submit);
    }
  }

  // ----- the pool's code, under any scheduler

  method Perform<A, B(0)>(pool: WorkerPool<A, B>, a: PoolAction)
    requires PoolEnabled(pool.job, pool.View(), a)
    modifies pool, pool.results
    ensures pool.View() == PoolStep(pool.job, old(pool.View()), a)
  {
    hide PoolEnabled, PoolStep;
    match a
    case Submit => pool.SubmitNext();
    case StopSubmitting => pool.CloseWork(a);
    case CloseChannel => pool.CloseWork(a);
    case Take => var i := pool.TakeItem();
    case Finish(i) => pool.RecordResult(i);
    case Return => pool.WorkerReturns();
  }

  /** The wished step if it is possible, otherwise some possible step; none only when nothing can happen. */
  method PickStep<A, B(0)>(pool: WorkerPool<A, B>, wish: PoolAction) returns (a: Option<PoolAction>)
    requires Conserved(pool.job, pool.View())
    ensures a.Some? ==> PoolEnabled(pool.job, pool.View(), a.value)
    ensures a.None? ==> forall step :: !PoolEnabled(pool.job, pool.View(), step)
    ensures PoolEnabled(pool.job, pool.View(), wish) ==> a == Some(wish)
  {
    var options := [wish, Submit, StopSubmitting, CloseChannel, Take, Return];
    if pool.busy != {} {
      var i :| i in pool.busy;
      options := options + [Finish(i)];
    }
    assert options[0] == wish && options[1] == Submit && options[2] == StopSubmitting && options[3] == CloseChannel
      && options[4] == Take && options[5] == Return;
    assert pool.busy != {} ==> |options| == 7 && options[6].Finish? && options[6].index in pool.busy;
    var k := 0;
    while k < |options|
      invariant 0 <= k <= |options|
      invariant forall j :: 0 <= j < k ==> !PoolEnabled(pool.job, pool.View(), options[j])
    {
      var ok := pool.CanStep(options[k]);
      if ok {
        return Some(options[k]);
      }
      k := k + 1;
    }
    a := None;
  }

  /**
   mapConcurrent: whatever the scheduler wishes, the pool ends; it fails exactly when the sequential map
   does, naming some failing item, and otherwise returns the sequential results.
   */
  method MapConcurrent<A, B(0)>(items: seq<A>, mapper: Mapper<A, B>, continueOnError: bool, concurrency: nat,
                                wishes: nat -> PoolAction)
    returns (results: array<Option<B>>, error: Option<nat>)
    requires concurrency >= 1
    ensures error.Some? <==> !continueOnError && exists i :: 0 <= i < |items| && Fails(items, mapper, i)
    ensures error.Some? ==> error.value < |items| && Fails(items, mapper, error.value)
    ensures error.None? ==> results[..] == Mapped(items, mapper)
  {
    hide Conserved, PoolEnabled, PoolStep, WorkLeft, PoolPlay, PoolLegal, Correct, Staffed;
    var job := Job(items, mapper, continueOnError, concurrency);
    var pool := new WorkerPool(job);
    ghost var actions: seq<PoolAction> := [];
    NothingPlayed(job);
    var n, running := 0, true;
    while running
      invariant fresh(pool) && fresh(pool.results) && pool.job == job
      invariant PoolLegal(job, actions) && PoolPlay(job, actions) == pool.View()
      invariant !running ==> forall step :: !PoolEnabled(job, pool.View(), step)
      decreases 4 * |items| + concurrency + 1 - |actions|, running
    {
      PoolInvariant(job, actions);
      var a := PickStep(pool, wishes(n));
      if a.None? {
        running := false;
      } else {
        PlayedOn(job, actions, a.value);
        PoolTerminates(job, actions + [a.value]);
        Perform(pool, a.value);
        actions := actions + [a.value];
        n := n + 1;
      }
    }
    FinishedWhenStuck(job, actions);
    PoolRefinesSequential(job, actions);
    results, error := pool.results, pool.firstErr;
  }

  lemma NothingPlayed<A, B>(job: Job<A, B>)
    ensures PoolLegal(job, []) && PoolPlay(job, []) == PoolStart(job)
  {
  }

  lemma PlayedOn<A, B>(job: Job<A, B>, actions: seq<PoolAction>, a: PoolAction)
    requires PoolLegal(job, actions) && PoolEnabled(job, PoolPlay(job, actions), a)
    ensures PoolLegal(job, actions + [a])
    ensures PoolPlay(job, actions + [a]) == PoolStep(job, PoolPlay(job, actions), a)
  {
    TakeOfAppend(actions, a, 0);
  }

  lemma FinishedWhenStuck<A, B>(job: Job<A, B>, actions: seq<PoolAction>)
    requires job.concurrency >= 1 && PoolLegal(job, actions)
    requires forall a :: !PoolEnabled(job, PoolPlay(job, actions), a)
    ensures Finished(PoolPlay(job, actions))
  {
    if !Finished(PoolPlay(job, actions)) {
      PoolNeverSticks(job, actions);
    }
  }
}
