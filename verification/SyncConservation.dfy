/** What every step of a sync run keeps: no listed object is lost track of, none is dropped without cause, and the byte budget holds. */
module SyncConservation {
  import opened Bytes
  import opened SyncPlan
  import opened SyncRun

  function HasTask(): Worker -> nat {
    (w: Worker) => if w.HasTask() then 1 else 0
  }

  /** Tasks taken from the listing or the queue and not yet settled. */
  function InHand(s: State): nat {
    Total(HasTask(), s.workers) + if s.lister.Sending? then 1 else 0
  }

  /** Every listed object is settled, queued, in hand or dropped. */
  predicate Conserved(s: State) {
    s.listed == s.copied + s.skipped + s.failed + |s.queue| + InHand(s) + s.dropped
  }

  function Accounted(s: State): nat {
    s.copied + s.skipped + s.failed + |s.queue| + s.dropped
  }

  /** A worker's step moves an object between one account and its hands. */
  lemma WorkerMovesOne(c: Config, md5: Text -> Text, s: State, worker: Worker, k: WorkerStep)
    requires WorkerMay(c, s, worker, k)
    ensures var t := Effect(c, md5, s, worker, k);
      && t.listed == s.listed && t.lister == s.lister && t.workers == s.workers
      && Accounted(t) + HasTask()(Becomes(c, md5, s, worker, k)) == Accounted(s) + HasTask()(worker)
  {
  }

  lemma WorkerConserves(c: Config, md5: Text -> Text, s: State, w: nat, k: WorkerStep)
    requires w < |s.workers| && WorkerMay(c, s, s.workers[w], k) && Conserved(s)
    ensures Conserved(Apply(c, md5, s, ByWorker(w, k)))
  {
    var worker := Becomes(c, md5, s, s.workers[w], k);
    WorkerMovesOne(c, md5, s, s.workers[w], k);
    TotalAfter(HasTask(), s.workers, w, worker);
    var t := Apply(c, md5, s, ByWorker(w, k));
    assert t.workers == s.workers[w := worker];
    assert Accounted(t) == Accounted(Effect(c, md5, s, s.workers[w], k));
  }

  lemma ListerConserves(c: Config, s: State, l: ListerStep)
    requires ListerMay(c, s, l) && Conserved(s)
    ensures Conserved(ListerDoes(c, s, l))
  {
  }

  /** Idle workers have nothing in hand. */
  lemma {:induction false} IdleHasNothing(f: Worker -> nat, workers: seq<Worker>)
    requires f(Idle) == 0 && forall w | 0 <= w < |workers| :: workers[w] == Idle
    ensures Total(f, workers) == 0
  {
    if workers != [] {
      IdleHasNothing(f, workers[1..]);
    }
  }

  /** At every moment, what was listed is copied, skipped, failed, queued, in hand or dropped. */
  lemma {:induction false} ConservedAlways(c: Config, md5: Text -> Text, states: seq<State>, events: seq<Event>, i: nat)
    requires IsRun(c, md5, states, events) && i < |states|
    ensures Conserved(states[i])
  {
    if i == 0 {
      IdleHasNothing(HasTask(), states[0].workers);
    } else {
      var s := states[i - 1];
      ConservedAlways(c, md5, states, events, i - 1);
      RunStep(c, md5, states, events, i - 1);
      match events[i - 1]
      case Cancel =>
      case ParentDrops =>
      case ByLister(l) => ListerConserves(c, s, l);
      case ByWorker(w, k) => WorkerConserves(c, md5, s, w, k);
    }
  }

  // ---- Nothing is dropped without cause ----

  predicate HasCause(c: Config, s: State) {
    s.cancels > 0 || BudgetSpent(c, s)
  }

  /** Without a cause, workers stay until the listing has ended and the queue is drained. */
  ghost predicate NoLossWithoutCause(c: Config, s: State) {
    && (s.lister.Sending? ==> s.seen == 0)
    && s.seen <= s.cancels
    && (!HasCause(c, s) ==> s.dropped == 0)
    && (!HasCause(c, s) && (exists w :: 0 <= w < |s.workers| && s.workers[w].Gone?) ==> s.lister.Ended? && s.queue == [])
    && s.workers != []
  }

  lemma ListerLosesNothing(c: Config, s: State, l: ListerStep)
    requires ListerMay(c, s, l) && NoLossWithoutCause(c, s)
    ensures NoLossWithoutCause(c, ListerDoes(c, s, l))
  {
    if l.SendClosed? {
      assert s.workers[0].Gone?;
    }
  }

  lemma WorkerLosesNothing(c: Config, md5: Text -> Text, s: State, w: nat, k: WorkerStep)
    requires w < |s.workers| && WorkerMay(c, s, s.workers[w], k) && NoLossWithoutCause(c, s)
    ensures NoLossWithoutCause(c, Apply(c, md5, s, ByWorker(w, k)))
  {
    var t := Apply(c, md5, s, ByWorker(w, k));
    if !HasCause(c, t) && exists v :: 0 <= v < |t.workers| && t.workers[v].Gone? {
      var v :| 0 <= v < |t.workers| && t.workers[v].Gone?;
      assert !HasCause(c, s);
      if v != w {
        assert s.workers[v].Gone?;
      }
    }
  }

  lemma {:induction false} NoLossWithoutCauseAlways(c: Config, md5: Text -> Text, states: seq<State>, events: seq<Event>, i: nat)
    requires IsRun(c, md5, states, events) && i < |states|
    ensures NoLossWithoutCause(c, states[i])
  {
    if i > 0 {
      var s := states[i - 1];
      NoLossWithoutCauseAlways(c, md5, states, events, i - 1);
      RunStep(c, md5, states, events, i - 1);
      match events[i - 1]
      case Cancel =>
      case ParentDrops =>
      case ByLister(l) => ListerLosesNothing(c, s, l);
      case ByWorker(w, k) => WorkerLosesNothing(c, md5, s, w, k);
    }
  }

  lemma {:induction false} GoneHasNothing(f: Worker -> nat, workers: seq<Worker>)
    requires f(Gone) == 0 && AllGone(workers)
    ensures Total(f, workers) == 0
  {
    if workers != [] {
      GoneHasNothing(f, workers[1..]);
    }
  }

  /** A run that was neither cancelled nor out of budget ends with every listed object copied, skipped or failed. */
  lemma FinalCounts(c: Config, md5: Text -> Text, states: seq<State>, events: seq<Event>, i: nat)
    requires IsRun(c, md5, states, events) && i < |states| && Final(states[i])
    ensures var s := states[i];
      && s.listed == s.copied + s.skipped + s.failed + |s.queue| + s.dropped
      && (!HasCause(c, s) ==> s.listed == s.copied + s.skipped + s.failed)
  {
    ConservedAlways(c, md5, states, events, i);
    NoLossWithoutCauseAlways(c, md5, states, events, i);
    GoneHasNothing(HasTask(), states[i].workers);
    assert states[i].workers[0].Gone?;
  }

  /** As long as the bytes counted are below the budget, and nobody cancels, a run that has ended has settled everything it listed. */
  lemma RunGoesOnWithinBudget(c: Config, md5: Text -> Text, states: seq<State>, events: seq<Event>, i: nat)
    requires IsRun(c, md5, states, events) && i < |states| && Final(states[i])
    requires states[i].cancels == 0 && (c.maxBytes.Some? ==> states[i].bytes < c.maxBytes.value)
    ensures states[i].dropped == 0 && states[i].queue == []
    ensures states[i].listed == states[i].copied + states[i].skipped + states[i].failed
  {
    FinalCounts(c, md5, states, events, i);
    NoLossWithoutCauseAlways(c, md5, states, events, i);
    assert states[i].workers[0].Gone?;
  }

  // ---- The byte budget ----

  /** Counted bytes and bytes in flight. */
  function Committed(c: Config, s: State): nat {
    s.bytes + Total(SizeInFlight(c), s.workers)
  }

  /** What is committed stays below the budget plus what was in flight at the last check that passed. */
  ghost predicate WithinBudget(c: Config, s: State) {
    c.maxBytes.Some? && Committed(c, s) > 0 ==> Committed(c, s) <= c.maxBytes.value - 1 + s.inFlightAtCheck
  }

  /** Bytes are committed by the check of the budget only. */
  lemma WorkerCommits(c: Config, md5: Text -> Text, s: State, worker: Worker, k: WorkerStep)
    requires WorkerMay(c, s, worker, k)
    ensures var t, became := Effect(c, md5, s, worker, k), Becomes(c, md5, s, worker, k);
      if k.CheckBudget? && !BudgetSpent(c, s) then
        t.bytes == s.bytes && SizeInFlight(c)(worker) == 0
        && t.inFlightAtCheck == Total(SizeInFlight(c), s.workers) + SizeInFlight(c)(became)
      else
        t.bytes + SizeInFlight(c)(became) <= s.bytes + SizeInFlight(c)(worker) && t.inFlightAtCheck == s.inFlightAtCheck
  {
  }

  lemma WorkerWithinBudget(c: Config, md5: Text -> Text, s: State, w: nat, k: WorkerStep)
    requires w < |s.workers| && WorkerMay(c, s, s.workers[w], k) && WithinBudget(c, s)
    ensures WithinBudget(c, Apply(c, md5, s, ByWorker(w, k)))
  {
    var became := Becomes(c, md5, s, s.workers[w], k);
    WorkerCommits(c, md5, s, s.workers[w], k);
    TotalAfter(SizeInFlight(c), s.workers, w, became);
    var t := Apply(c, md5, s, ByWorker(w, k));
    assert t.workers == s.workers[w := became];
  }

  lemma ListerCommitsNothing(c: Config, s: State, l: ListerStep)
    requires ListerMay(c, s, l)
    ensures ListerDoes(c, s, l).workers == s.workers
    ensures ListerDoes(c, s, l).bytes == s.bytes && ListerDoes(c, s, l).copied == s.copied
    ensures ListerDoes(c, s, l).inFlightAtCheck == s.inFlightAtCheck
  {
  }

  lemma {:induction false} WithinBudgetAlways(c: Config, md5: Text -> Text, states: seq<State>, events: seq<Event>, i: nat)
    requires IsRun(c, md5, states, events) && i < |states|
    ensures WithinBudget(c, states[i])
  {
    if i == 0 {
      IdleHasNothing(SizeInFlight(c), states[0].workers);
    } else {
      var s := states[i - 1];
      WithinBudgetAlways(c, md5, states, events, i - 1);
      RunStep(c, md5, states, events, i - 1);
      match events[i - 1]
      case Cancel =>
      case ParentDrops =>
      case ByLister(l) => ListerCommitsNothing(c, s, l);
      case ByWorker(w, k) => WorkerWithinBudget(c, md5, s, w, k);
    }
  }

  lemma {:induction false} TotalIsBounded(f: Worker -> nat, workers: seq<Worker>, bound: nat)
    requires forall worker :: f(worker) <= bound
    ensures Total(f, workers) <= |workers| * bound
  {
    if workers != [] {
      TotalIsBounded(f, workers[1..], bound);
    }
  }

  /** What was in flight at a check is at most one copy for each worker. */
  ghost predicate OneCopyEach(c: Config, s: State, largest: nat) {
    |s.workers| == c.concurrency && s.inFlightAtCheck <= c.concurrency * largest
  }

  lemma WorkerHasOneCopy(c: Config, md5: Text -> Text, s: State, w: nat, k: WorkerStep, largest: nat)
    requires forall i :: Reports(c, i) <= largest
    requires w < |s.workers| && WorkerMay(c, s, s.workers[w], k) && OneCopyEach(c, s, largest)
    ensures OneCopyEach(c, Apply(c, md5, s, ByWorker(w, k)), largest)
  {
    var worker := Becomes(c, md5, s, s.workers[w], k);
    if k.CheckBudget? && !BudgetSpent(c, s) {
      TotalAfter(SizeInFlight(c), s.workers, w, worker);
      TotalIsBounded(SizeInFlight(c), s.workers[w := worker], largest);
    }
  }

  lemma {:induction false} OneCopyEachAlways(c: Config, md5: Text -> Text, states: seq<State>, events: seq<Event>, i: nat, largest: nat)
    requires forall k :: Reports(c, k) <= largest
    requires IsRun(c, md5, states, events) && i < |states|
    ensures OneCopyEach(c, states[i], largest)
  {
    if i > 0 {
      var s := states[i - 1];
      OneCopyEachAlways(c, md5, states, events, i - 1, largest);
      RunStep(c, md5, states, events, i - 1);
      match events[i - 1]
      case Cancel =>
      case ParentDrops =>
      case ByLister(l) => ListerCommitsNothing(c, s, l);
      case ByWorker(w, k) => WorkerHasOneCopy(c, md5, s, w, k, largest);
    }
  }

  // ---- Bytes that land ----

  /** The bytes a step puts in place. */
  function LandedBy(c: Config, s: State, e: Event): nat {
    if e.ByWorker? && e.w < |s.workers| && e.k.Lands() then Reports(c, s.workers[e.w].Task()) else 0
  }

  /** The bytes a step puts in place for a copy that it reports failed or cancelled. */
  function StrayedBy(c: Config, s: State, e: Event): nat {
    if e.ByWorker? && !e.k.Land? then LandedBy(c, s, e) else 0
  }

  ghost function LandedBytes(c: Config, states: seq<State>, events: seq<Event>, n: nat): nat
    requires n <= |events| && |states| == |events| + 1
  {
    if n == 0 then 0 else LandedBytes(c, states, events, n - 1) + LandedBy(c, states[n - 1], events[n - 1])
  }

  ghost function StrayBytes(c: Config, states: seq<State>, events: seq<Event>, n: nat): nat
    requires n <= |events| && |states| == |events| + 1
  {
    if n == 0 then 0 else StrayBytes(c, states, events, n - 1) + StrayedBy(c, states[n - 1], events[n - 1])
  }

  /** Landed, reported as copied, and not in the byte counter yet. */
  function Uncounted(c: Config): Worker -> nat {
    (w: Worker) => if w.Landed? || w.Counted? then Reports(c, w.Task()) else 0
  }

  lemma WorkerCountsWhatLands(c: Config, md5: Text -> Text, s: State, w: nat, k: WorkerStep)
    requires w < |s.workers| && WorkerMay(c, s, s.workers[w], k)
    ensures var became, e := Becomes(c, md5, s, s.workers[w], k), ByWorker(w, k);
      Effect(c, md5, s, s.workers[w], k).bytes + Uncounted(c)(became) + StrayedBy(c, s, e)
      == s.bytes + Uncounted(c)(s.workers[w]) + LandedBy(c, s, e)
  {
  }

  /** Every byte that has landed is counted, about to be, or of a copy that was reported failed or cancelled. */
  lemma {:induction false} LandedBytesAreCounted(c: Config, md5: Text -> Text, states: seq<State>, events: seq<Event>, n: nat)
    requires IsRun(c, md5, states, events) && n <= |events|
    ensures LandedBytes(c, states, events, n) == states[n].bytes + Total(Uncounted(c), states[n].workers) + StrayBytes(c, states, events, n)
  {
    if n == 0 {
      IdleHasNothing(Uncounted(c), states[0].workers);
    } else {
      var s := states[n - 1];
      LandedBytesAreCounted(c, md5, states, events, n - 1);
      RunStep(c, md5, states, events, n - 1);
      match events[n - 1]
      case Cancel =>
      case ParentDrops =>
      case ByLister(l) => ListerCommitsNothing(c, s, l);
      case ByWorker(w, k) =>
        WorkerCountsWhatLands(c, md5, s, w, k);
        TotalAfter(Uncounted(c), s.workers, w, Becomes(c, md5, s, s.workers[w], k));
    }
  }

  lemma {:induction false} UncountedIsInFlight(c: Config, workers: seq<Worker>)
    ensures Total(Uncounted(c), workers) <= Total(SizeInFlight(c), workers)
  {
    if workers != [] {
      UncountedIsInFlight(c, workers[1..]);
    }
  }

  /**
   * With a budget, the bytes that have landed stay below it but for what was in flight at the last check that passed,
   * at most one copy for each worker, and for copies that landed and were then reported failed or cancelled.
   */
  lemma BudgetBound(c: Config, md5: Text -> Text, states: seq<State>, events: seq<Event>, i: nat, largest: nat)
    requires forall k :: Reports(c, k) <= largest
    requires IsRun(c, md5, states, events) && i < |states| && c.maxBytes.Some? && c.maxBytes.value > 0
    ensures LandedBytes(c, states, events, i) <= c.maxBytes.value - 1 + states[i].inFlightAtCheck + StrayBytes(c, states, events, i)
    ensures Committed(c, states[i]) <= c.maxBytes.value - 1 + states[i].inFlightAtCheck
    ensures states[i].inFlightAtCheck <= c.concurrency * largest
  {
    WithinBudgetAlways(c, md5, states, events, i);
    OneCopyEachAlways(c, md5, states, events, i, largest);
    LandedBytesAreCounted(c, md5, states, events, i);
    UncountedIsInFlight(c, states[i].workers);
  }

  /** When every copy that lands is reported as copied, that is a bound on all that lands. */
  lemma PlainBudgetBound(c: Config, md5: Text -> Text, states: seq<State>, events: seq<Event>, i: nat, largest: nat)
    requires forall k :: Reports(c, k) <= largest
    requires IsRun(c, md5, states, events) && i < |states| && c.maxBytes.Some? && c.maxBytes.value > 0
    requires StrayBytes(c, states, events, i) == 0
    ensures LandedBytes(c, states, events, i) <= c.maxBytes.value - 1 + c.concurrency * largest
  {
    BudgetBound(c, md5, states, events, i, largest);
  }

  lemma LandingIsPut(c: Config, md5: Text -> Text, s: State, worker: Worker, k: WorkerStep)
    requires WorkerMay(c, s, worker, k)
    ensures k.Lands() ==> c.IsTask(worker.Task())
    ensures k.Lands() ==>
      Effect(c, md5, s, worker, k).dst == PutsSome(c, md5, s.dst, worker.Task(), if k.Land? then Whole else k.landing, k.now)
    ensures !k.Lands() ==> Effect(c, md5, s, worker, k).dst == s.dst
  {
  }

  /** The destination changes where a copy lands, by just the bytes that are counted as landed, and nowhere else. */
  lemma LandingsChangeTheDestination(c: Config, md5: Text -> Text, s: State, w: nat, k: WorkerStep, key: Text)
    requires w < |s.workers| && WorkerMay(c, s, s.workers[w], k)
    ensures var d, i := Apply(c, md5, s, ByWorker(w, k)).dst, s.workers[w].Task();
      if k.Lands() && c.DstKey(i) == Some(key) then
        key in d && |d[key].body| == LandedBy(c, s, ByWorker(w, k))
      else
        (key in d <==> key in s.dst) && (key in d ==> d[key] == s.dst[key])
  {
    LandingIsPut(c, md5, s, s.workers[w], k);
  }

  /** No copy is under way or done. */
  ghost predicate NothingCopied(s: State) {
    s.copied == 0 && forall w | 0 <= w < |s.workers| :: !s.workers[w].InFlight()
  }

  lemma WorkerCopiesNothing(c: Config, md5: Text -> Text, s: State, w: nat, k: WorkerStep)
    requires c.maxBytes == Some(0) && NothingCopied(s)
    requires w < |s.workers| && WorkerMay(c, s, s.workers[w], k)
    ensures NothingCopied(Apply(c, md5, s, ByWorker(w, k)))
    ensures Apply(c, md5, s, ByWorker(w, k)).dst == s.dst
  {
  }

  lemma ListerKeepsDestination(c: Config, s: State, l: ListerStep)
    requires ListerMay(c, s, l)
    ensures ListerDoes(c, s, l).dst == s.dst
  {
  }

  /** A budget of zero copies nothing. */
  lemma {:induction false} ZeroBudgetCopiesNothing(c: Config, md5: Text -> Text, states: seq<State>, events: seq<Event>, i: nat)
    requires IsRun(c, md5, states, events) && i < |states| && c.maxBytes == Some(0)
    ensures NothingCopied(states[i]) && states[i].dst == states[0].dst
  {
    if i > 0 {
      var s := states[i - 1];
      ZeroBudgetCopiesNothing(c, md5, states, events, i - 1);
      RunStep(c, md5, states, events, i - 1);
      match events[i - 1]
      case Cancel =>
      case ParentDrops =>
      case ByLister(l) => ListerCommitsNothing(c, s, l); ListerKeepsDestination(c, s, l);
      case ByWorker(w, k) => WorkerCopiesNothing(c, md5, s, w, k);
    }
  }

  // ---- The cap on objects ----

  /** Everything handed to the workers was planned, and no more is planned than allowed. */
  ghost predicate WithinCap(c: Config, s: State) {
    && s.copied + s.skipped + |s.queue| + Total(HasTask(), s.workers) <= s.planned
    && (c.maxObjects.Some? ==> s.planned <= c.maxObjects.value)
    && (c.maxObjects.Some? && s.lister.Sending? ==> s.planned < c.maxObjects.value)
  }

  lemma WorkerHandsOver(c: Config, md5: Text -> Text, s: State, worker: Worker, k: WorkerStep)
    requires WorkerMay(c, s, worker, k)
    ensures var t := Effect(c, md5, s, worker, k);
      && t.planned == s.planned && t.lister == s.lister
      && t.copied + t.skipped + |t.queue| + HasTask()(Becomes(c, md5, s, worker, k)) <= s.copied + s.skipped + |s.queue| + HasTask()(worker)
  {
  }

  lemma WorkerWithinCap(c: Config, md5: Text -> Text, s: State, w: nat, k: WorkerStep)
    requires w < |s.workers| && WorkerMay(c, s, s.workers[w], k) && WithinCap(c, s)
    ensures WithinCap(c, Apply(c, md5, s, ByWorker(w, k)))
  {
    var became := Becomes(c, md5, s, s.workers[w], k);
    WorkerHandsOver(c, md5, s, s.workers[w], k);
    TotalAfter(HasTask(), s.workers, w, became);
    assert Apply(c, md5, s, ByWorker(w, k)).workers == s.workers[w := became];
  }

  lemma ListerWithinCap(c: Config, s: State, l: ListerStep)
    requires ListerMay(c, s, l) && WithinCap(c, s)
    ensures WithinCap(c, ListerDoes(c, s, l))
  {
  }

  /** With a cap on objects, no more than that many are ever copied or skipped. */
  lemma {:induction false} ObjectCapHolds(c: Config, md5: Text -> Text, states: seq<State>, events: seq<Event>, i: nat)
    requires IsRun(c, md5, states, events) && i < |states|
    ensures WithinCap(c, states[i])
    ensures c.maxObjects.Some? ==> states[i].copied + states[i].skipped <= c.maxObjects.value
  {
    if i == 0 {
      IdleHasNothing(HasTask(), states[0].workers);
    } else {
      var s := states[i - 1];
      ObjectCapHolds(c, md5, states, events, i - 1);
      RunStep(c, md5, states, events, i - 1);
      match events[i - 1]
      case Cancel =>
      case ParentDrops =>
      case ByLister(l) => ListerWithinCap(c, s, l);
      case ByWorker(w, k) => WorkerWithinCap(c, md5, s, w, k);
    }
  }

  /** The lister ends well, without a cancel or a loss, only at the end of the listing or with as many planned as the cap allows. */
  ghost predicate EndsForReason(c: Config, s: State) {
    s.lister.Ended? && s.lister.ok && s.cancels == 0 && s.dropped == 0 ==>
      s.cursor >= |c.listing| || (c.maxObjects.Some? && s.planned >= c.maxObjects.value)
  }

  lemma WorkerKeepsReason(c: Config, md5: Text -> Text, s: State, worker: Worker, k: WorkerStep)
    requires WorkerMay(c, s, worker, k)
    ensures var t := Effect(c, md5, s, worker, k);
      t.lister == s.lister && t.cancels == s.cancels && t.dropped >= s.dropped && t.cursor == s.cursor && t.planned == s.planned
  {
  }

  lemma {:induction false} EndsForReasonAlways(c: Config, md5: Text -> Text, states: seq<State>, events: seq<Event>, i: nat)
    requires IsRun(c, md5, states, events) && i < |states|
    ensures EndsForReason(c, states[i])
  {
    if i > 0 {
      var s := states[i - 1];
      EndsForReasonAlways(c, md5, states, events, i - 1);
      RunStep(c, md5, states, events, i - 1);
      match events[i - 1]
      case Cancel =>
      case ParentDrops =>
      case ByLister(l) => ListerEndsForReason(c, s, l);
      case ByWorker(w, k) => WorkerKeepsReason(c, md5, s, s.workers[w], k);
    }
  }

  lemma ListerEndsForReason(c: Config, s: State, l: ListerStep)
    requires ListerMay(c, s, l)
    ensures EndsForReason(c, ListerDoes(c, s, l)) || s.lister.Ended?
  {
  }

  /** So a run that nothing cuts short has read the whole listing, or handed on exactly as many objects as the cap allows. */
  lemma ListingIsReadOrCapped(c: Config, md5: Text -> Text, states: seq<State>, events: seq<Event>, i: nat)
    requires IsRun(c, md5, states, events) && i < |states| && Final(states[i]) && states[i].lister.ok
    requires states[i].cancels == 0 && (c.maxBytes.Some? ==> states[i].bytes < c.maxBytes.value)
    ensures states[i].cursor == |c.listing| || c.maxObjects == Some(states[i].planned)
  {
    RunGoesOnWithinBudget(c, md5, states, events, i);
    EndsForReasonAlways(c, md5, states, events, i);
    ObjectCapHolds(c, md5, states, events, i);
    SoundAlways(c, md5, states, events, i);
  }

  // ---- Cancelling ----

  /** Past the check for cancel requests, with a copy that may still land. */
  function PastCheck(): Worker -> nat {
    (w: Worker) => if w.HasTask() && !w.Got? then 1 else 0
  }

  /** Copies done, and copies that may still land. */
  function MayLand(s: State): nat {
    s.copied + Total(PastCheck(), s.workers)
  }

  lemma WorkerLandsNoMore(c: Config, md5: Text -> Text, s: State, w: nat, k: WorkerStep)
    requires w < |s.workers| && WorkerMay(c, s, s.workers[w], k) && s.cancels > 0
    ensures MayLand(Apply(c, md5, s, ByWorker(w, k))) <= MayLand(s)
    ensures Apply(c, md5, s, ByWorker(w, k)).listed == s.listed
  {
    var became := Becomes(c, md5, s, s.workers[w], k);
    var t := Effect(c, md5, s, s.workers[w], k);
    TotalAfter(PastCheck(), s.workers, w, became);
    assert t.copied + PastCheck()(became) <= s.copied + PastCheck()(s.workers[w]) && t.listed == s.listed;
    assert Apply(c, md5, s, ByWorker(w, k)).workers == s.workers[w := became];
  }

  lemma {:induction false} CancelledLandsNoMore(c: Config, md5: Text -> Text, states: seq<State>, events: seq<Event>, i: nat, j: nat)
    requires IsRun(c, md5, states, events) && i <= j < |states| && states[i].cancels > 0
    ensures MayLand(states[j]) <= MayLand(states[i]) && states[j].listed == states[i].listed && states[j].cancels > 0
  {
    if i < j {
      var s := states[j - 1];
      CancelledLandsNoMore(c, md5, states, events, i, j - 1);
      RunStep(c, md5, states, events, j - 1);
      match events[j - 1]
      case Cancel =>
      case ParentDrops =>
      case ByLister(l) => ListerCommitsNothing(c, s, l);
      case ByWorker(w, k) => WorkerLandsNoMore(c, md5, s, w, k);
    }
  }

  /** After a cancel request nothing more is listed, and each worker finishes at most the copy it has begun. */
  lemma CancelStopsSoon(c: Config, md5: Text -> Text, states: seq<State>, events: seq<Event>, i: nat, j: nat)
    requires IsRun(c, md5, states, events) && i <= j < |states| && states[i].cancels > 0
    ensures states[j].listed == states[i].listed
    ensures states[j].copied <= states[i].copied + c.concurrency
  {
    CancelledLandsNoMore(c, md5, states, events, i, j);
    TotalIsBounded(PastCheck(), states[i].workers, 1);
    SoundAlways(c, md5, states, events, i);
  }
}
