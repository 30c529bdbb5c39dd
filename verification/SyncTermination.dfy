/** A sync run cannot hang, and ends. */
module SyncTermination {
  import opened Bytes
  import opened SyncPlan
  import opened SyncRun

  // ---- Progress ----

  /** Some step other than a cancel request can be taken. */
  ghost predicate CanMove(c: Config, s: State) {
    exists e: Event :: e != Cancel && Enabled(c, s, e)
  }

  lemma BusyWorkerMoves(c: Config, s: State, w: nat)
    requires Sound(c, s) && w < |s.workers|
    requires !s.workers[w].Idle? && !s.workers[w].Receiving? && !s.workers[w].Gone?
    ensures CanMove(c, s)
  {
    var k := match s.workers[w]
      case Got(_) => CheckCancel
      case Deciding(_) => Judge
      case Wanted(_) => CheckBudget
      case Opening(_) => OpenDone
      case Copying(_, _) => Land(0)
      case Landed(_) => CountCopied
      case _ => CountBytes;
    assert Enabled(c, s, ByWorker(w, k));
  }

  /** A worker that waits gets the lock, a task, or word that there are no more. */
  lemma WaitingWorkerMoves(c: Config, s: State, w: nat)
    requires w < |s.workers| && (s.workers[w].Idle? || s.workers[w].Receiving?)
    requires s.queue != [] || s.lister.Ended?
    ensures CanMove(c, s)
  {
    if Unlocked(s.workers) {
      assert Enabled(c, s, ByWorker(w, Lock));
    } else {
      var v :| 0 <= v < |s.workers| && s.workers[v].Receiving?;
      assert Enabled(c, s, ByWorker(v, if s.queue != [] then Receive else ReceiveClosed));
    }
  }

  lemma ListerMoves(c: Config, s: State)
    requires Sound(c, s) && !s.lister.Ended?
    requires s.lister.Sending? ==> Closed(s) || |s.queue| < 2 * c.concurrency
    ensures CanMove(c, s)
  {
    var l := match s.lister
      case Starting => Start
      case Ready => if MustStop(c, s) then Stop else if c.listing[s.cursor].PageBreak? then AskPage else Take
      case Fetching => PageFetched
      case _ => if Closed(s) then SendClosed else Send;
    assert Enabled(c, s, ByLister(l));
  }

  /** As long as the run is not over, something can happen without anyone cancelling it. */
  lemma NeverStuck(c: Config, md5: Text -> Text, states: seq<State>, events: seq<Event>, i: nat)
    requires IsRun(c, md5, states, events) && i < |states| && !Final(states[i])
    ensures CanMove(c, states[i])
  {
    var s := states[i];
    SoundAlways(c, md5, states, events, i);
    if s.parentHolds {
      assert Enabled(c, s, ParentDrops);
    } else if AllGone(s.workers) {
      ListerMoves(c, s);
    } else {
      var w :| 0 <= w < |s.workers| && !s.workers[w].Gone?;
      if !s.workers[w].Idle? && !s.workers[w].Receiving? {
        BusyWorkerMoves(c, s, w);
      } else if s.queue != [] || s.lister.Ended? {
        WaitingWorkerMoves(c, s, w);
      } else {
        ListerMoves(c, s);
      }
    }
  }

  // ---- Termination ----

  function ListerWeight(c: Config, s: State): int {
    if s.lister.Ended? then 0
    else 12 * (|c.listing| - s.cursor) + (if s.lister.Starting? then 3 else if s.lister.Ready? then 2 else 1)
  }

  function WorkerWeight(): Worker -> nat {
    (w: Worker) => match w
      case Gone => 0
      case Receiving => 1
      case Idle => 2
      case Counted(_) => 3
      case Landed(_) => 4
      case Copying(_, _) => 5
      case Opening(_) => 6
      case Wanted(_) => 7
      case Deciding(_) => 8
      case Got(_) => 9
  }

  /** How much is left to do. */
  function Measure(c: Config, s: State): int {
    ListerWeight(c, s) + 10 * |s.queue| + Total(WorkerWeight(), s.workers) + (if s.parentHolds then 1 else 0)
  }

  lemma WorkerKeepsRest(c: Config, md5: Text -> Text, s: State, worker: Worker, k: WorkerStep)
    requires WorkerMay(c, s, worker, k)
    ensures var t := Effect(c, md5, s, worker, k);
      && t.lister == s.lister && t.cursor == s.cursor && t.parentHolds == s.parentHolds && t.workers == s.workers
      && |t.queue| == |s.queue| - if k.Receive? then 1 else 0
  {
  }

  lemma WorkerWeighsLess(c: Config, md5: Text -> Text, s: State, worker: Worker, k: WorkerStep)
    requires WorkerMay(c, s, worker, k)
    ensures WorkerWeight()(Becomes(c, md5, s, worker, k)) < WorkerWeight()(worker) + if k.Receive? then 10 else 0
  {
  }

  /** Every step but a cancel request leaves less to do; a cancel request leaves no more. */
  lemma StepsLowerTheMeasure(c: Config, md5: Text -> Text, s: State, e: Event)
    requires Enabled(c, s, e) && Sound(c, s)
    ensures 0 <= Measure(c, s)
    ensures if e == Cancel then Measure(c, Apply(c, md5, s, e)) == Measure(c, s) else Measure(c, Apply(c, md5, s, e)) < Measure(c, s)
  {
    if e.ByWorker? {
      var became := Becomes(c, md5, s, s.workers[e.w], e.k);
      WorkerKeepsRest(c, md5, s, s.workers[e.w], e.k);
      WorkerWeighsLess(c, md5, s, s.workers[e.w], e.k);
      TotalAfter(WorkerWeight(), s.workers, e.w, became);
      assert Apply(c, md5, s, e).workers == s.workers[e.w := became];
    } else if e.ByLister? {
      ListerWeighsLess(c, s, e.l);
    }
  }

  lemma ListerWeighsLess(c: Config, s: State, l: ListerStep)
    requires ListerMay(c, s, l) && Sound(c, s)
    ensures var t := ListerDoes(c, s, l);
      && t.parentHolds == s.parentHolds && t.workers == s.workers
      && ListerWeight(c, t) + 10 * |t.queue| < ListerWeight(c, s) + 10 * |s.queue|
  {
  }

  function Moves(events: seq<Event>): nat {
    if events == [] then 0 else Moves(events[..|events| - 1]) + if events[|events| - 1] == Cancel then 0 else 1
  }

  lemma {:induction false} MovesLowerTheMeasure(c: Config, md5: Text -> Text, states: seq<State>, events: seq<Event>, i: nat)
    requires IsRun(c, md5, states, events) && i <= |events|
    ensures Moves(events[..i]) + Measure(c, states[i]) <= Measure(c, states[0])
    ensures 0 <= Measure(c, states[i])
  {
    SoundAlways(c, md5, states, events, i);
    if i > 0 {
      MovesLowerTheMeasure(c, md5, states, events, i - 1);
      SoundAlways(c, md5, states, events, i - 1);
      RunStep(c, md5, states, events, i - 1);
      StepsLowerTheMeasure(c, md5, states[i - 1], events[i - 1]);
      assert events[..i][..i - 1] == events[..i - 1];
    }
  }

  lemma {:induction false} IdleWeight(workers: seq<Worker>)
    requires forall w | 0 <= w < |workers| :: workers[w] == Idle
    ensures Total(WorkerWeight(), workers) == 2 * |workers|
  {
    if workers != [] {
      IdleWeight(workers[1..]);
    }
  }

  /** However the steps interleave, a run over a finite listing takes a bounded number of them. */
  lemma RunsAreBounded(c: Config, md5: Text -> Text, states: seq<State>, events: seq<Event>)
    requires IsRun(c, md5, states, events)
    ensures Moves(events) <= 12 * |c.listing| + 2 * c.concurrency + 4
  {
    MovesLowerTheMeasure(c, md5, states, events, |events|);
    assert events[..|events|] == events;
    IdleWeight(states[0].workers);
  }

  // ---- Why the parent has to let go of the receiver ----

  /** Five objects, one worker, a budget that is spent from the start. */
  function Hopeless(): Config {
    var o := Listed(Object(Source([97], 0, None, None), []));
    Config([o, o, o, o, o], [], [], OverwriteAll, 0, false, None, Some(0), 1)
  }

  lemma HopelessTasks(i: nat)
    requires i < 5
    ensures Hopeless().IsTask(i) && Hopeless().listing[i].Listed?
    ensures forall md5: Text -> Text, dst: map<Text, Stored> :: Verdict(Hopeless(), md5, dst, i) == Copy(Forced)
  {
    SplitPiece([97], SLASH, []);
  }

  /** Nobody cancelled, the parent still holds the receiver, and nothing was copied. */
  ghost predicate Held(s: State, lister: Lister, cursor: nat, queue: seq<nat>, workers: seq<Worker>) {
    s.parentHolds && s.cancels == 0 == s.seen && s.bytes == 0 && s.lister == lister && s.cursor == cursor && s.queue == queue && s.workers == workers
  }

  lemma Extend(c: Config, md5: Text -> Text, states: seq<State>, events: seq<Event>, e: Event) returns (states': seq<State>, events': seq<Event>)
    requires IsRun(c, md5, states, events) && Enabled(c, states[|events|], e) && e != ParentDrops && ParentDrops !in events
    ensures IsRun(c, md5, states', events') && ParentDrops !in events'
    ensures states'[|events'|] == Apply(c, md5, states[|events|], e)
  {
    Extended(c, md5, states, events, e);
    events' := events + [e];
    states' := states + [Apply(c, md5, states[|events|], e)];
  }

  /** The lister hands on one more object. */
  lemma HandsOn(md5: Text -> Text, states: seq<State>, events: seq<Event>, cursor: nat, queue: seq<nat>, workers: seq<Worker>) returns (states': seq<State>, events': seq<Event>)
    requires IsRun(Hopeless(), md5, states, events) && ParentDrops !in events && cursor < 5 && |queue| < 2
    requires Held(states[|events|], Ready, cursor, queue, workers)
    ensures IsRun(Hopeless(), md5, states', events') && ParentDrops !in events'
    ensures Held(states'[|events'|], Ready, cursor + 1, queue + [cursor], workers)
  {
    HopelessTasks(cursor);
    states', events' := Extend(Hopeless(), md5, states, events, ByLister(Take));
    states', events' := Extend(Hopeless(), md5, states', events', ByLister(Send));
  }

  /** The worker takes a task as far as the check of the budget, and leaves. */
  lemma Leaves(md5: Text -> Text, states: seq<State>, events: seq<Event>) returns (states': seq<State>, events': seq<Event>)
    requires IsRun(Hopeless(), md5, states, events) && ParentDrops !in events
    requires Held(states[|events|], Ready, 1, [0], [Idle])
    ensures IsRun(Hopeless(), md5, states', events') && ParentDrops !in events'
    ensures Held(states'[|events'|], Ready, 1, [], [Gone])
  {
    HopelessTasks(0);
    states', events' := WorkerDoes(md5, states, events, Lock, Receiving);
    states', events' := WorkerDoes(md5, states', events', Receive, Got(0));
    states', events' := WorkerDoes(md5, states', events', CheckCancel, Deciding(0));
    states', events' := WorkerDoes(md5, states', events', Judge, Wanted(0));
    states', events' := WorkerDoes(md5, states', events', CheckBudget, Gone);
  }

  lemma WorkerDoes(md5: Text -> Text, states: seq<State>, events: seq<Event>, k: WorkerStep, became: Worker) returns (states': seq<State>, events': seq<Event>)
    requires IsRun(Hopeless(), md5, states, events) && ParentDrops !in events
    requires |states[|events|].workers| == 1 && WorkerMay(Hopeless(), states[|events|], states[|events|].workers[0], k)
    requires Becomes(Hopeless(), md5, states[|events|], states[|events|].workers[0], k) == became
    ensures IsRun(Hopeless(), md5, states', events') && ParentDrops !in events'
    ensures states'[|events'|] == Effect(Hopeless(), md5, states[|events|], states[|events|].workers[0], k).(workers := [became])
  {
    states', events' := Extend(Hopeless(), md5, states, events, ByWorker(0, k));
    assert states[|events|].workers[0 := became] == [became];
  }

  /** Were the parent to keep its handle on the receiver, a run could come to a stop with the lister waiting. */
  lemma HoldingOnWouldHang(md5: Text -> Text) returns (states: seq<State>, events: seq<Event>)
    ensures IsRun(Hopeless(), md5, states, events) && ParentDrops !in events
    ensures !states[|events|].lister.Ended?
    ensures forall e | Enabled(Hopeless(), states[|events|], e) :: e == Cancel || e == ParentDrops
  {
    var s0 := State(Starting, 0, 0, 0, [], [Idle], true, 0, 0, 0, 0, 0, 0, 0, map[], map[], 0);
    states, events := [s0], [];
    assert IsRun(Hopeless(), md5, states, events);
    states, events := Extend(Hopeless(), md5, states, events, ByLister(Start));
    states, events := HandsOn(md5, states, events, 0, [], [Idle]);
    states, events := Leaves(md5, states, events);
    states, events := HandsOn(md5, states, events, 1, [], [Gone]);
    states, events := HandsOn(md5, states, events, 2, [1], [Gone]);
    HopelessTasks(3);
    states, events := Extend(Hopeless(), md5, states, events, ByLister(Take));
    assert Held(states[|events|], Sending, 3, [1, 2], [Gone]);
  }
}
