/** Running a sync again: what an interrupted run leaves, a full run completes, and a further run has nothing to do. */
module SyncResume {
  import opened Bytes
  import opened SyncPlan
  import opened SyncRun
  import opened SyncConservation
  import SyncManager

  // ---- Each listed object is in one place ----

  predicate Holds(worker: Worker, i: nat) {
    worker.HasTask() && worker.Task() == i
  }

  /** A listed object is queued, with one worker, or settled; what is not yet listed is nowhere. */
  ghost predicate InOnePlace(s: State, i: nat) {
    && (forall j, k | 0 <= j < k < |s.queue| && s.queue[j] == i :: s.queue[k] != i)
    && (forall v, w | 0 <= v < w < |s.workers| && Holds(s.workers[v], i) :: !Holds(s.workers[w], i))
    && (i in s.queue ==> i < s.cursor && i !in s.fates)
    && (forall w | 0 <= w < |s.workers| && Holds(s.workers[w], i) :: i < s.cursor && i !in s.queue && i !in s.fates)
    && (i in s.fates ==> i < s.cursor)
  }

  /** A worker's step settles its own object or keeps it in hand. */
  lemma WorkerSettles(c: Config, md5: Text -> Text, s: State, worker: Worker, k: WorkerStep, i: nat)
    requires WorkerMay(c, s, worker, k)
    ensures var t, became := Effect(c, md5, s, worker, k), Becomes(c, md5, s, worker, k);
      && (i in t.fates <==> i in s.fates || (Holds(worker, i) && !Holds(became, i)))
      && (i in s.fates && !Holds(worker, i) ==> t.fates[i] == s.fates[i])
  {
    match k
    case CheckCancel =>
    case Judge =>
    case CheckBudget =>
    case Land(_) =>
    case CountCopied =>
    case _ =>
  }

  lemma WorkerTakes(c: Config, md5: Text -> Text, s: State, worker: Worker, k: WorkerStep, i: nat)
    requires WorkerMay(c, s, worker, k)
    ensures Holds(Becomes(c, md5, s, worker, k), i) ==> Holds(worker, i) || (k.Receive? && s.queue[0] == i)
  {
  }

  /** Where a worker's step leaves the object. */
  lemma WorkerMovesTask(c: Config, md5: Text -> Text, s: State, worker: Worker, k: WorkerStep, i: nat)
    requires WorkerMay(c, s, worker, k)
    ensures var t, became := Effect(c, md5, s, worker, k), Becomes(c, md5, s, worker, k);
      && t.cursor == s.cursor && t.workers == s.workers
      && t.queue == (if k.Receive? then s.queue[1..] else s.queue)
      && (Holds(became, i) ==> Holds(worker, i) || (k.Receive? && s.queue[0] == i))
      && (i in t.fates <==> i in s.fates || (Holds(worker, i) && !Holds(became, i)))
      && (i in s.fates && !Holds(worker, i) ==> t.fates[i] == s.fates[i])
  {
    WorkerSettles(c, md5, s, worker, k, i);
    WorkerTakes(c, md5, s, worker, k, i);
  }

  /** Moving the object from the queue to a worker, or from a worker to its fate, keeps it in one place. */
  lemma PlacesCarry(s: State, t: State, w: nat, became: Worker, takes: bool, i: nat)
    requires InOnePlace(s, i) && w < |s.workers| && (takes ==> s.queue != [] && !Holds(s.workers[w], i))
    requires t.cursor == s.cursor && t.workers == s.workers[w := became] && t.queue == if takes then s.queue[1..] else s.queue
    requires Holds(became, i) ==> Holds(s.workers[w], i) || (takes && s.queue[0] == i)
    requires i in t.fates <==> i in s.fates || (Holds(s.workers[w], i) && !Holds(became, i))
    ensures InOnePlace(t, i)
  {
  }

  lemma WorkerKeepsPlaces(c: Config, md5: Text -> Text, s: State, w: nat, k: WorkerStep, i: nat)
    requires w < |s.workers| && WorkerMay(c, s, s.workers[w], k) && InOnePlace(s, i)
    ensures InOnePlace(Apply(c, md5, s, ByWorker(w, k)), i)
  {
    WorkerMovesTask(c, md5, s, s.workers[w], k, i);
    PlacesCarry(s, Apply(c, md5, s, ByWorker(w, k)), w, Becomes(c, md5, s, s.workers[w], k), k.Receive?, i);
  }

  lemma ListerKeepsPlaces(c: Config, s: State, l: ListerStep, i: nat)
    requires ListerMay(c, s, l) && InOnePlace(s, i)
    ensures InOnePlace(ListerDoes(c, s, l), i)
  {
  }

  lemma {:induction false} InOnePlaceAlways(c: Config, md5: Text -> Text, states: seq<State>, events: seq<Event>, n: nat, i: nat)
    requires IsRun(c, md5, states, events) && n < |states|
    ensures InOnePlace(states[n], i)
  {
    if n > 0 {
      var s := states[n - 1];
      InOnePlaceAlways(c, md5, states, events, n - 1, i);
      RunStep(c, md5, states, events, n - 1);
      match events[n - 1]
      case Cancel =>
      case ParentDrops =>
      case ByLister(l) => ListerKeepsPlaces(c, s, l, i);
      case ByWorker(w, k) => WorkerKeepsPlaces(c, md5, s, w, k, i);
    }
  }

  /** A listed object to be copied is queued, in hand or settled: none is forgotten. */
  ghost predicate NotForgotten(c: Config, s: State, i: nat) {
    c.IsTask(i) && i < s.cursor ==> i in s.fates || i in s.queue || exists w :: 0 <= w < |s.workers| && Holds(s.workers[w], i)
  }

  lemma WorkerForgetsNone(c: Config, md5: Text -> Text, s: State, w: nat, k: WorkerStep, i: nat)
    requires w < |s.workers| && WorkerMay(c, s, s.workers[w], k) && NotForgotten(c, s, i)
    ensures NotForgotten(c, Apply(c, md5, s, ByWorker(w, k)), i)
  {
    var t, became := Apply(c, md5, s, ByWorker(w, k)), Becomes(c, md5, s, s.workers[w], k);
    WorkerMovesTask(c, md5, s, s.workers[w], k, i);
    assert t.workers == s.workers[w := became];
    if k.Receive? {
      assert s.queue == [s.queue[0]] + s.queue[1..];
      assert Holds(t.workers[w], s.queue[0]);
    }
    if c.IsTask(i) && i < s.cursor && i !in t.fates && i !in t.queue {
      if v :| 0 <= v < |s.workers| && Holds(s.workers[v], i) {
        assert Holds(t.workers[v], i);
      }
    }
  }

  lemma {:induction false} NoneForgottenAlways(c: Config, md5: Text -> Text, states: seq<State>, events: seq<Event>, n: nat, i: nat)
    requires IsRun(c, md5, states, events) && n < |states|
    ensures NotForgotten(c, states[n], i)
  {
    if n > 0 {
      var s := states[n - 1];
      NoneForgottenAlways(c, md5, states, events, n - 1, i);
      SoundAlways(c, md5, states, events, n - 1);
      RunStep(c, md5, states, events, n - 1);
      match events[n - 1]
      case Cancel =>
      case ParentDrops =>
      case ByLister(l) => ListerForgetsNone(c, s, l, i);
      case ByWorker(w, k) => WorkerForgetsNone(c, md5, s, w, k, i);
    }
  }

  lemma ListerForgetsNone(c: Config, s: State, l: ListerStep, i: nat)
    requires ListerMay(c, s, l) && NotForgotten(c, s, i) && Sound(c, s)
    ensures NotForgotten(c, ListerDoes(c, s, l), i)
  {
  }

  // ---- What a run does to the destination ----

  predicate SameIn(a: map<Text, Stored>, b: map<Text, Stored>, key: Text) {
    (key in a <==> key in b) && (key in a ==> a[key] == b[key])
  }

  /** No two objects of the listing go to the same key. */
  ghost predicate DistinctKeys(c: Config) {
    forall i, j {:trigger c.IsTask(i), c.IsTask(j)} | c.IsTask(i) && c.IsTask(j) && c.DstKey(i) == c.DstKey(j) :: i == j
  }

  /** The times at which copies land. */
  ghost predicate LandsTimely(s: State, e: Event, timely: (nat, I64) -> bool) {
    e.ByWorker? && e.w < |s.workers| && e.k.Lands() ==> timely(s.workers[e.w].Task(), e.k.now)
  }

  /** The object was to be copied, and has been. */
  ghost predicate IsDone(c: Config, md5: Text -> Text, d0: map<Text, Stored>, timely: (nat, I64) -> bool, s: State, i: nat)
    requires c.IsTask(i)
  {
    var key := c.DstKey(i).value;
    Verdict(c, md5, d0, i).Copy? && key in s.dst && s.dst[key].body == c.Lands(i) && timely(i, s.dst[key].modified)
  }

  /** The sidecar of the destination holds the ETag of the copied bytes. */
  predicate HasOwnEtag(c: Config, md5: Text -> Text, s: State, i: nat)
    requires c.IsTask(i)
  {
    var key := c.DstKey(i).value;
    key in s.dst && s.dst[key].etag == Some(md5(c.Lands(i)))
  }

  ghost predicate IsUntouched(c: Config, d0: map<Text, Stored>, s: State, i: nat)
    requires c.IsTask(i)
  {
    SameIn(d0, s.dst, c.DstKey(i).value)
  }

  /** What each stage of an object says about its destination, where the run began with `d0` there. */
  ghost predicate Tells(c: Config, md5: Text -> Text, d0: map<Text, Stored>, timely: (nat, I64) -> bool, s: State, i: nat)
    requires c.IsTask(i)
  {
    && (IsUntouched(c, d0, s, i) || IsDone(c, md5, d0, timely, s, i))
    && (i >= s.cursor || i in s.queue ==> IsUntouched(c, d0, s, i))
    && (forall w | 0 <= w < |s.workers| && Holds(s.workers[w], i) :: WorkerTells(c, md5, d0, timely, s, s.workers[w], i))
    && (i in s.fates && s.fates[i].Copied? ==> IsDone(c, md5, d0, timely, s, i) && HasOwnEtag(c, md5, s, i))
    && (i in s.fates && s.fates[i].Skipped? ==> IsUntouched(c, d0, s, i) && Verdict(c, md5, d0, i).Skip?)
  }

  ghost predicate WorkerTells(c: Config, md5: Text -> Text, d0: map<Text, Stored>, timely: (nat, I64) -> bool, s: State, worker: Worker, i: nat)
    requires c.IsTask(i)
  {
    if worker.Landed? then IsDone(c, md5, d0, timely, s, i) && HasOwnEtag(c, md5, s, i)
    else IsUntouched(c, d0, s, i) && (worker.Wanted? || worker.Opening? || worker.Copying? ==> Verdict(c, md5, d0, i).Copy?)
  }

  /** A step for another object leaves this one's destination alone. */
  lemma OtherObject(c: Config, md5: Text -> Text, s: State, worker: Worker, k: WorkerStep, i: nat)
    requires DistinctKeys(c) && c.IsTask(i) && WorkerMay(c, s, worker, k) && !Holds(worker, i)
    ensures SameIn(s.dst, Effect(c, md5, s, worker, k).dst, c.DstKey(i).value)
  {
  }

  /** A worker's step for its own object. */
  lemma OwnObject(c: Config, md5: Text -> Text, d0: map<Text, Stored>, timely: (nat, I64) -> bool, s: State, w: nat, k: WorkerStep, i: nat)
    requires w < |s.workers| && WorkerMay(c, s, s.workers[w], k) && c.IsTask(i) && LandsTimely(s, ByWorker(w, k), timely)
    requires Holds(s.workers[w], i) && WorkerTells(c, md5, d0, timely, s, s.workers[w], i)
    ensures var t, became := Effect(c, md5, s, s.workers[w], k), Becomes(c, md5, s, s.workers[w], k);
      && (IsUntouched(c, d0, t, i) || IsDone(c, md5, d0, timely, t, i))
      && (Holds(became, i) ==> WorkerTells(c, md5, d0, timely, t, became, i))
      && (!Holds(became, i) ==> i in t.fates)
      && (!Holds(became, i) && t.fates[i].Copied? ==> IsDone(c, md5, d0, timely, t, i) && HasOwnEtag(c, md5, t, i))
      && (!Holds(became, i) && t.fates[i].Skipped? ==> IsUntouched(c, d0, t, i) && Verdict(c, md5, d0, i).Skip?)
  {
    match k
    case CheckCancel =>
    case Judge =>
    case CheckBudget =>
    case Land(_) =>
    case CountCopied =>
    case _ =>
  }

  lemma OwnerTells(c: Config, md5: Text -> Text, d0: map<Text, Stored>, timely: (nat, I64) -> bool, s: State, w: nat, k: WorkerStep, i: nat)
    requires w < |s.workers| && WorkerMay(c, s, s.workers[w], k) && c.IsTask(i) && LandsTimely(s, ByWorker(w, k), timely)
    requires InOnePlace(s, i) && Tells(c, md5, d0, timely, s, i) && Holds(s.workers[w], i)
    ensures Tells(c, md5, d0, timely, Apply(c, md5, s, ByWorker(w, k)), i)
  {
    var t, became := Apply(c, md5, s, ByWorker(w, k)), Becomes(c, md5, s, s.workers[w], k);
    OwnObject(c, md5, d0, timely, s, w, k, i);
    WorkerMovesTask(c, md5, s, s.workers[w], k, i);
    assert t.workers == s.workers[w := became];
    forall v | 0 <= v < |t.workers| && Holds(t.workers[v], i) ensures WorkerTells(c, md5, d0, timely, t, t.workers[v], i) {
      assert v == w;
    }
  }

  lemma BystanderTells(c: Config, md5: Text -> Text, d0: map<Text, Stored>, timely: (nat, I64) -> bool, s: State, w: nat, k: WorkerStep, i: nat)
    requires DistinctKeys(c) && w < |s.workers| && WorkerMay(c, s, s.workers[w], k) && c.IsTask(i)
    requires InOnePlace(s, i) && Tells(c, md5, d0, timely, s, i) && !Holds(s.workers[w], i)
    ensures Tells(c, md5, d0, timely, Apply(c, md5, s, ByWorker(w, k)), i)
  {
    var t, became := Apply(c, md5, s, ByWorker(w, k)), Becomes(c, md5, s, s.workers[w], k);
    OtherObject(c, md5, s, s.workers[w], k, i);
    WorkerMovesTask(c, md5, s, s.workers[w], k, i);
    assert t.workers == s.workers[w := became];
    assert k.Receive? ==> s.queue[0] in s.queue && became == Got(s.queue[0]);
    forall v | 0 <= v < |t.workers| && Holds(t.workers[v], i) ensures WorkerTells(c, md5, d0, timely, t, t.workers[v], i) {
      assert v != w ==> WorkerTells(c, md5, d0, timely, s, s.workers[v], i);
    }
  }

  lemma ListerTells(c: Config, md5: Text -> Text, d0: map<Text, Stored>, timely: (nat, I64) -> bool, s: State, l: ListerStep, i: nat)
    requires ListerMay(c, s, l) && c.IsTask(i) && Sound(c, s)
    requires InOnePlace(s, i) && Tells(c, md5, d0, timely, s, i)
    ensures Tells(c, md5, d0, timely, ListerDoes(c, s, l), i)
  {
    var t := ListerDoes(c, s, l);
    assert t.dst == s.dst && t.workers == s.workers;
    forall w | 0 <= w < |t.workers| && Holds(t.workers[w], i) ensures WorkerTells(c, md5, d0, timely, t, t.workers[w], i) {
      assert WorkerTells(c, md5, d0, timely, s, s.workers[w], i);
    }
  }

  ghost predicate AllTimely(states: seq<State>, events: seq<Event>, timely: (nat, I64) -> bool) {
    |states| == |events| + 1 && forall n | 0 <= n < |events| :: LandsTimely(states[n], events[n], timely)
  }

  lemma {:induction false} TellsAlways(c: Config, md5: Text -> Text, timely: (nat, I64) -> bool, states: seq<State>, events: seq<Event>, n: nat, i: nat)
    requires IsRun(c, md5, states, events) && n < |states| && c.IsTask(i) && DistinctKeys(c) && AllTimely(states, events, timely)
    ensures Tells(c, md5, states[0].dst, timely, states[n], i)
  {
    if n > 0 {
      var s, d0 := states[n - 1], states[0].dst;
      TellsAlways(c, md5, timely, states, events, n - 1, i);
      InOnePlaceAlways(c, md5, states, events, n - 1, i);
      SoundAlways(c, md5, states, events, n - 1);
      RunStep(c, md5, states, events, n - 1);
      match events[n - 1]
      case Cancel =>
      case ParentDrops =>
      case ByLister(l) => ListerTells(c, md5, d0, timely, s, l, i);
      case ByWorker(w, k) =>
        if Holds(s.workers[w], i) {
          OwnerTells(c, md5, d0, timely, s, w, k, i);
        } else {
          BystanderTells(c, md5, d0, timely, s, w, k, i);
        }
    }
  }

  // ---- Whether a copy has landed ----

  /** This step puts object `i` in place. */
  predicate LandsObject(s: State, e: Event, i: nat) {
    e.ByWorker? && e.w < |s.workers| && e.k.Lands() && s.workers[e.w].Task() == i
  }

  ghost predicate HasLanded(states: seq<State>, events: seq<Event>, n: nat, i: nat)
    requires n <= |events| && |states| == |events| + 1
  {
    exists m :: 0 <= m < n && LandsObject(states[m], events[m], i)
  }

  lemma LandingIsDone(c: Config, md5: Text -> Text, d0: map<Text, Stored>, timely: (nat, I64) -> bool, s: State, e: Event, i: nat)
    requires Enabled(c, s, e) && c.IsTask(i) && LandsObject(s, e, i) && LandsTimely(s, e, timely) && Tells(c, md5, d0, timely, s, i)
    ensures IsDone(c, md5, d0, timely, Apply(c, md5, s, e), i)
  {
    assert Holds(s.workers[e.w], i);
    LandingIsPut(c, md5, s, s.workers[e.w], e.k);
  }

  lemma NoLandingNoChange(c: Config, md5: Text -> Text, s: State, e: Event, i: nat)
    requires Enabled(c, s, e) && DistinctKeys(c) && c.IsTask(i) && !LandsObject(s, e, i)
    ensures SameIn(s.dst, Apply(c, md5, s, e).dst, c.DstKey(i).value)
  {
    match e
    case Cancel =>
    case ParentDrops =>
    case ByLister(l) => ListerKeepsDestination(c, s, l);
    case ByWorker(w, k) => LandingIsPut(c, md5, s, s.workers[w], k);
  }

  /**
   * An object's destination is as it was at the start until a step puts the object in place, and from then on holds
   * the whole object, whatever the copy is reported as.
   */
  lemma {:induction false} DoneIffLanded(c: Config, md5: Text -> Text, timely: (nat, I64) -> bool, states: seq<State>, events: seq<Event>, n: nat, i: nat)
    requires IsRun(c, md5, states, events) && n <= |events| && c.IsTask(i) && DistinctKeys(c) && AllTimely(states, events, timely)
    ensures if HasLanded(states, events, n, i) then IsDone(c, md5, states[0].dst, timely, states[n], i) else IsUntouched(c, states[0].dst, states[n], i)
  {
    if n > 0 {
      DoneIffLanded(c, md5, timely, states, events, n - 1, i);
      RunStep(c, md5, states, events, n - 1);
      if LandsObject(states[n - 1], events[n - 1], i) {
        TellsAlways(c, md5, timely, states, events, n - 1, i);
        LandingIsDone(c, md5, states[0].dst, timely, states[n - 1], events[n - 1], i);
      } else {
        NoLandingNoChange(c, md5, states[n - 1], events[n - 1], i);
      }
    }
  }

  /** One object and one worker. */
  function Single(): Config {
    Config([Listed(Object(Source([97], 1, None, None), [98]))], [], [], OverwriteAll, 0, false, None, None, 1)
  }

  lemma SingleTask(md5: Text -> Text, dst: map<Text, Stored>)
    ensures Single().IsTask(0) && Single().DstKey(0) == Some([97]) && Single().Lands(0) == [98]
    ensures Verdict(Single(), md5, dst, 0) == Copy(Forced)
  {
    SplitPiece([97], SLASH, []);
    assert [] + [97] == [97];
  }

  /** A state of the run below: what differs from the start is where the lister and the worker are. */
  function Stage(lister: Lister, at: nat, listed: nat, queue: seq<nat>, worker: Worker): State {
    State(lister, at, 0, at, queue, [worker], true, 0, listed, 0, 0, 0, 0, 0, map[], map[], 0)
  }

  lemma SingleQueued(md5: Text -> Text) returns (states: seq<State>, events: seq<Event>)
    ensures IsRun(Single(), md5, states, events) && states[0].dst == map[]
    ensures states[|events|] == Stage(Ready, 1, 1, [0], Idle)
  {
    states, events := [Stage(Starting, 0, 0, [], Idle)], [];
    assert IsRun(Single(), md5, states, events);
    SingleTask(md5, map[]);
    states, events := Further(md5, states, events, ByLister(Start), Stage(Ready, 0, 0, [], Idle));
    states, events := Further(md5, states, events, ByLister(Take), Stage(Sending, 0, 1, [], Idle));
    states, events := Further(md5, states, events, ByLister(Send), Stage(Ready, 1, 1, [0], Idle));
  }

  lemma SingleTaken(md5: Text -> Text) returns (states: seq<State>, events: seq<Event>)
    ensures IsRun(Single(), md5, states, events) && states[0].dst == map[]
    ensures states[|events|] == Stage(Ready, 1, 1, [], Got(0))
  {
    states, events := SingleQueued(md5);
    states, events := Further(md5, states, events, ByWorker(0, Lock), Stage(Ready, 1, 1, [0], Receiving));
    states, events := Further(md5, states, events, ByWorker(0, Receive), Stage(Ready, 1, 1, [], Got(0)));
  }

  /** The copy is under way when somebody cancels the run. */
  lemma SingleCancelled(md5: Text -> Text) returns (states: seq<State>, events: seq<Event>)
    ensures IsRun(Single(), md5, states, events) && states[0].dst == map[]
    ensures exists check: nat :: states[|events|] == Stage(Ready, 1, 1, [], Copying(0, 0)).(cancels := 1, inFlightAtCheck := check)
  {
    SingleTask(md5, map[]);
    states, events := SingleTaken(md5);
    states, events := Further(md5, states, events, ByWorker(0, CheckCancel), Stage(Ready, 1, 1, [], Deciding(0)));
    states, events := Further(md5, states, events, ByWorker(0, Judge), Stage(Ready, 1, 1, [], Wanted(0)));
    var check := Total(SizeInFlight(Single()), [Wanted(0)]) + Reports(Single(), 0);
    states, events := Further(md5, states, events, ByWorker(0, CheckBudget), Stage(Ready, 1, 1, [], Opening(0)).(inFlightAtCheck := check));
    states, events := Further(md5, states, events, ByWorker(0, OpenDone), Stage(Ready, 1, 1, [], Copying(0, 0)).(inFlightAtCheck := check));
    states, events := Further(md5, states, events, Cancel, Stage(Ready, 1, 1, [], Copying(0, 0)).(cancels := 1, inFlightAtCheck := check));
  }

  /** A copy that is cancelled, and counted as dropped, can have changed the destination. */
  lemma CancelledCopyCanLand(md5: Text -> Text) returns (states: seq<State>, events: seq<Event>)
    ensures IsRun(Single(), md5, states, events) && states[0].dst == map[]
    ensures |events| > 0 && events[|events| - 1] == ByWorker(0, CopyCancelled(BytesOnly(None), 0))
    ensures var s := states[|events|]; s.fates == map[0 := Dropped] && s.copied == 0 && s.dst == map[[97] := Stored([98], 0, None)]
  {
    SingleTask(md5, map[]);
    states, events := SingleCancelled(md5);
    var s, e := states[|events|], ByWorker(0, CopyCancelled(BytesOnly(None), 0));
    assert s.workers == [Copying(0, 0)];
    states, events := Further(md5, states, events, e, Apply(Single(), md5, s, e));
  }

  lemma Further(md5: Text -> Text, states: seq<State>, events: seq<Event>, e: Event, t: State) returns (states': seq<State>, events': seq<Event>)
    requires IsRun(Single(), md5, states, events)
    requires Enabled(Single(), states[|events|], e) && Apply(Single(), md5, states[|events|], e) == t
    ensures IsRun(Single(), md5, states', events') && states'[0] == states[0]
    ensures events' == events + [e] && states'[|events'|] == t
  {
    Extended(Single(), md5, states, events, e);
    events' := events + [e];
    states' := states + [t];
  }

  /** Keys no listed object goes to. */
  ghost predicate IsForeign(c: Config, key: Text) {
    forall i | c.IsTask(i) :: c.DstKey(i).value != key
  }

  lemma WorkerSparesForeignKeys(c: Config, md5: Text -> Text, s: State, worker: Worker, k: WorkerStep, key: Text)
    requires WorkerMay(c, s, worker, k) && IsForeign(c, key)
    ensures SameIn(s.dst, Effect(c, md5, s, worker, k).dst, key)
  {
  }

  lemma {:induction false} ForeignKeysStay(c: Config, md5: Text -> Text, states: seq<State>, events: seq<Event>, n: nat, key: Text)
    requires IsRun(c, md5, states, events) && n < |states| && IsForeign(c, key)
    ensures SameIn(states[0].dst, states[n].dst, key)
  {
    if n > 0 {
      var s := states[n - 1];
      ForeignKeysStay(c, md5, states, events, n - 1, key);
      RunStep(c, md5, states, events, n - 1);
      match events[n - 1]
      case Cancel =>
      case ParentDrops =>
      case ByLister(l) => ListerKeepsDestination(c, s, l);
      case ByWorker(w, k) => WorkerSparesForeignKeys(c, md5, s, s.workers[w], k, key);
    }
  }

  // ---- A full run ----

  /** A run that came to its end without a cancel request, a failure, a spent budget or a cap on objects. */
  ghost predicate IsFullRun(c: Config, md5: Text -> Text, states: seq<State>, events: seq<Event>) {
    && IsRun(c, md5, states, events)
    && c.maxObjects.None?
    && var s := states[|events|];
      Final(s) && s.lister.ok && s.cancels == 0 && s.failed == 0 && !BudgetSpent(c, s)
  }

  /** A settled failure or loss shows in the counters, and a listing that ended well was read to the end. */
  ghost predicate Shows(c: Config, s: State, i: nat) {
    && (i in s.fates && s.fates[i].Failed? ==> s.failed > 0)
    && (i in s.fates && s.fates[i].Dropped? ==> s.dropped > 0)
    && (s.lister.Ended? && s.lister.ok && c.maxObjects.None? && s.cancels == 0 && s.dropped == 0 ==> s.cursor >= |c.listing|)
  }

  /** A worker's step leaves the lister alone, and counts what it settles as failed or dropped. */
  lemma EffectShows(c: Config, md5: Text -> Text, s: State, worker: Worker, k: WorkerStep, i: nat)
    requires WorkerMay(c, s, worker, k)
    ensures var t := Effect(c, md5, s, worker, k);
      && t.lister == s.lister && t.cursor == s.cursor && t.cancels == s.cancels && t.failed >= s.failed && t.dropped >= s.dropped
      && (i in t.fates && t.fates[i].Failed? ==> t.failed > s.failed || (i in s.fates && s.fates[i].Failed?))
      && (i in t.fates && t.fates[i].Dropped? ==> t.dropped > s.dropped || (i in s.fates && s.fates[i].Dropped?))
  {
  }

  lemma WorkerShows(c: Config, md5: Text -> Text, s: State, w: nat, k: WorkerStep, i: nat)
    requires w < |s.workers| && WorkerMay(c, s, s.workers[w], k) && Shows(c, s, i)
    ensures Shows(c, Apply(c, md5, s, ByWorker(w, k)), i)
  {
    EffectShows(c, md5, s, s.workers[w], k, i);
  }

  lemma ListerShows(c: Config, s: State, l: ListerStep, i: nat)
    requires ListerMay(c, s, l) && Shows(c, s, i)
    ensures Shows(c, ListerDoes(c, s, l), i)
  {
  }

  lemma {:induction false} ShowsAlways(c: Config, md5: Text -> Text, states: seq<State>, events: seq<Event>, n: nat, i: nat)
    requires IsRun(c, md5, states, events) && n < |states|
    ensures Shows(c, states[n], i)
  {
    if n > 0 {
      var s := states[n - 1];
      ShowsAlways(c, md5, states, events, n - 1, i);
      RunStep(c, md5, states, events, n - 1);
      match events[n - 1]
      case Cancel =>
      case ParentDrops =>
      case ByLister(l) => ListerShows(c, s, l, i);
      case ByWorker(w, k) => WorkerShows(c, md5, s, w, k, i);
    }
  }

  /** In a full run every object was copied or skipped. */
  lemma FullRunSettlesAll(c: Config, md5: Text -> Text, states: seq<State>, events: seq<Event>, i: nat)
    requires IsFullRun(c, md5, states, events) && c.IsTask(i)
    ensures var s := states[|events|]; i in s.fates && (s.fates[i].Copied? || s.fates[i].Skipped?)
  {
    var n := |events|;
    var s := states[n];
    FinalCounts(c, md5, states, events, n);
    NoLossWithoutCauseAlways(c, md5, states, events, n);
    assert s.workers[0].Gone?;
    ShowsAlways(c, md5, states, events, n, i);
    NoneForgottenAlways(c, md5, states, events, n, i);
  }

  /** The status a run is reported with. */
  function Report(s: State): SyncManager.Status
    requires s.lister.Ended?
  {
    SyncManager.Judged(if s.lister.ok then None else Some([]), s.cancels > 0, s.failed)
  }

  /** A run that could not read its source has failed, a cancelled one is cancelled, and failed copies make it failed otherwise. */
  lemma ReportTells(s: State)
    requires s.lister.Ended?
    ensures Report(s).Cancelled? <==> s.lister.ok && s.cancels > 0
    ensures Report(s).Failed? <==> !s.lister.ok || (s.cancels == 0 && s.failed > 0)
    ensures Report(s).Completed? <==> s.lister.ok && s.cancels == 0 && s.failed == 0
  {
  }

  /** What the state keeps of two kinds of event: a page of the source that could not be read, and a cancel request. */
  lemma {:induction false} FlagsTell(c: Config, md5: Text -> Text, states: seq<State>, events: seq<Event>, i: nat)
    requires IsRun(c, md5, states, events) && i < |states|
    ensures states[i].lister == Ended(false) <==> ByLister(PageFails) in events[..i]
    ensures states[i].cancels > 0 <==> states[0].cancels > 0 || Cancel in events[..i]
  {
    if i > 0 {
      FlagsTell(c, md5, states, events, i - 1);
      RunStep(c, md5, states, events, i - 1);
      FlagsStep(c, md5, states[i - 1], events[i - 1]);
      assert events[..i] == events[..i - 1] + [events[i - 1]];
      assert forall e :: e in events[..i] <==> e in events[..i - 1] || e == events[i - 1];
    }
  }

  lemma FlagsStep(c: Config, md5: Text -> Text, s: State, e: Event)
    requires Enabled(c, s, e)
    ensures var t := Apply(c, md5, s, e);
      && (t.lister == Ended(false) <==> s.lister == Ended(false) || e == ByLister(PageFails))
      && (t.cancels > 0 <==> s.cancels > 0 || e == Cancel)
  {
    match e
    case Cancel =>
    case ParentDrops =>
    case ByLister(l) => ListerFlags(c, s, l);
    case ByWorker(w, k) => EffectShows(c, md5, s, s.workers[w], k, 0);
  }

  lemma ListerFlags(c: Config, s: State, l: ListerStep)
    requires ListerMay(c, s, l)
    ensures var t := ListerDoes(c, s, l); (t.lister == Ended(false) <==> l.PageFails?) && t.cancels == s.cancels && !s.lister.Ended?
  {
  }

  /**
   * A run is reported as failed when a page of the source could not be read, as cancelled when a cancel was requested
   * otherwise, and else as failed or completed as some object failed or none did.
   */
  lemma RunsAreReported(c: Config, md5: Text -> Text, states: seq<State>, events: seq<Event>)
    requires IsRun(c, md5, states, events) && Final(states[|events|])
    ensures var unread, cancelled := ByLister(PageFails) in events, states[0].cancels > 0 || Cancel in events;
      var report := Report(states[|events|]);
      && (report.Failed? <==> unread || (!cancelled && states[|events|].failed > 0))
      && (report.Cancelled? <==> !unread && cancelled)
      && (report.Completed? <==> !unread && !cancelled && states[|events|].failed == 0)
  {
    FlagsTell(c, md5, states, events, |events|);
    assert events[..|events|] == events;
    ReportTells(states[|events|]);
  }

  /** Without caps, a run reported as completed is a full run, and everything listed was copied or skipped. */
  lemma CompletedIsFull(c: Config, md5: Text -> Text, states: seq<State>, events: seq<Event>)
    requires IsRun(c, md5, states, events) && Final(states[|events|]) && c.maxObjects.None? && c.maxBytes.None?
    ensures Report(states[|events|]).Completed? <==> IsFullRun(c, md5, states, events)
    ensures Report(states[|events|]).Completed? ==> var s := states[|events|]; s.listed == s.copied + s.skipped
  {
    FinalCounts(c, md5, states, events, |events|);
  }

  function BodyAt(dst: map<Text, Stored>, key: Text): Option<Text> {
    if key in dst then Some(dst[key].body) else None
  }

  /** A full run copies exactly the objects the rule says to copy, judged by what was there at the start. */
  lemma FullRunResult(c: Config, md5: Text -> Text, states: seq<State>, events: seq<Event>, i: nat)
    requires IsFullRun(c, md5, states, events) && DistinctKeys(c) && c.IsTask(i)
    ensures var key, d0, d := c.DstKey(i).value, states[0].dst, states[|events|].dst;
      if Verdict(c, md5, d0, i).Copy? then BodyAt(d, key) == Some(c.Lands(i)) else SameIn(d0, d, key)
  {
    var timely := (k: nat, now: I64) => true;
    FullRunSettlesAll(c, md5, states, events, i);
    assert AllTimely(states, events, timely);
    TellsAlways(c, md5, timely, states, events, |events|, i);
  }

  /**
   * The stored object passes for the listed one: it has its size, and the same digest where the run verifies digests and
   * the source gives one, or otherwise landed no earlier, give or take the skew, than the source was modified.
   */
  ghost predicate PassesFor(c: Config, md5: Text -> Text, src: Source, stored: Stored) {
    && |stored.body| == src.size
    && if c.verifyEtag && src.etag.Some? && IsPlainMd5(src.etag.value) then
         var digest := if stored.etag.Some? && DASH !in stored.etag.value then stored.etag.value else md5(stored.body);
         EqualIgnoringCase(NormalizeEtag(src.etag.value), NormalizeEtag(digest))
       else
         src.modified.Some? && (stored.modified + c.skew >= src.modified.value || src.modified.value == I64_MIN)
  }

  /**
   * What a full run leaves, mode by mode, in terms of keys and bytes: every listed object is there, under the destination
   * prefix; what was missing, or is to be overwritten, is the source's; under `SkipExisting` what was there is left as it
   * was; in the default mode what passes for the source's is left, and anything else is replaced. A folder has no bytes.
   */
  lemma FullRunLeaves(c: Config, md5: Text -> Text, states: seq<State>, events: seq<Event>, i: nat, relative: Text)
    requires IsFullRun(c, md5, states, events) && DistinctKeys(c) && c.IsTask(i)
    requires c.listing[i].object_.src.key == c.srcPrefix + relative
    ensures var src, key, d0, d := c.listing[i].object_.src, c.dstPrefix + relative, states[0].dst, states[|events|].dst;
      var body := if key[|key| - 1..] == [SLASH] then [] else c.listing[i].object_.body;
      && key in d && (d[key].body == body || (key in d0 && d[key] == d0[key]))
      && (key !in d0 || c.mode == OverwriteAll ==> d[key].body == body)
      && (c.mode == SkipExisting && key in d0 ==> d[key] == d0[key])
      && (c.mode == NewAndChanged && key in d0 ==> if PassesFor(c, md5, src, d0[key]) then d[key] == d0[key] else d[key].body == body)
  {
    var src, key, d0 := c.Src(i), c.dstPrefix + relative, states[0].dst;
    RemapRebases(c.srcPrefix, relative, c.dstPrefix);
    assert c.DstKey(i) == Some(key);
    FullRunResult(c, md5, states, events, i);
    var local := View(c, md5, d0, key);
    assert Verdict(c, md5, d0, i) == Decide(c.mode, src, local, c.skew);
    OtherModesSkipIff(src, local, c.skew);
    NewAndChangedSkipsIff(src, local, c.skew);
  }

  // ---- Resuming ----

  /** The same work under possibly other caps and another number of workers. */
  predicate SameWork(a: Config, b: Config) {
    a.listing == b.listing && a.srcPrefix == b.srcPrefix && a.dstPrefix == b.dstPrefix && a.mode == b.mode && a.skew == b.skew && a.verifyEtag == b.verifyEtag
  }

  /**
   * A run that stops anywhere, for whatever reason, and then a full run leave at every key the bytes that one full
   * run would have left.
   */
  lemma ResumeEqualsOneRun(c: Config, md5: Text -> Text, whole: seq<State>, wholeEvents: seq<Event>,
                           broken: Config, part: seq<State>, partEvents: seq<Event>,
                           rest: seq<State>, restEvents: seq<Event>, key: Text)
    requires DistinctKeys(c) && SameWork(c, broken)
    requires IsFullRun(c, md5, whole, wholeEvents)
    requires IsRun(broken, md5, part, partEvents) && part[0].dst == whole[0].dst
    requires IsFullRun(c, md5, rest, restEvents) && rest[0].dst == part[|partEvents|].dst
    ensures BodyAt(rest[|restEvents|].dst, key) == BodyAt(whole[|wholeEvents|].dst, key)
  {
    if IsForeign(c, key) {
      SameTasks(c, broken, key);
      ForeignKeysStay(c, md5, whole, wholeEvents, |wholeEvents|, key);
      ForeignKeysStay(broken, md5, part, partEvents, |partEvents|, key);
      ForeignKeysStay(c, md5, rest, restEvents, |restEvents|, key);
    } else {
      var i :| c.IsTask(i) && c.DstKey(i).value == key;
      ResumeOneKey(c, md5, whole, wholeEvents, broken, part, partEvents, rest, restEvents, i);
    }
  }

  lemma ResumeOneKey(c: Config, md5: Text -> Text, whole: seq<State>, wholeEvents: seq<Event>,
                     broken: Config, part: seq<State>, partEvents: seq<Event>,
                     rest: seq<State>, restEvents: seq<Event>, i: nat)
    requires DistinctKeys(c) && SameWork(c, broken) && c.IsTask(i)
    requires IsFullRun(c, md5, whole, wholeEvents)
    requires IsRun(broken, md5, part, partEvents) && part[0].dst == whole[0].dst
    requires IsFullRun(c, md5, rest, restEvents) && rest[0].dst == part[|partEvents|].dst
    ensures BodyAt(rest[|restEvents|].dst, c.DstKey(i).value) == BodyAt(whole[|wholeEvents|].dst, c.DstKey(i).value)
  {
    var timely := (k: nat, now: I64) => true;
    assert AllTimely(part, partEvents, timely);
    SameTasks(c, broken, []);
    TellsAlways(broken, md5, timely, part, partEvents, |partEvents|, i);
    FullRunResult(c, md5, whole, wholeEvents, i);
    FullRunResult(c, md5, rest, restEvents, i);
  }

  lemma SameTasks(a: Config, b: Config, key: Text)
    requires SameWork(a, b)
    ensures DistinctKeys(a) ==> DistinctKeys(b)
    ensures IsForeign(a, key) ==> IsForeign(b, key)
  {
    assert forall i :: b.IsTask(i) ==> a.IsTask(i) && a.DstKey(i) == b.DstKey(i);
  }

  /** A listing of distinct keys, all under the prefix that was asked for, goes to distinct keys. */
  lemma DistinctListing(c: Config)
    requires forall i | c.IsObject(i) :: c.srcPrefix <= c.Src(i).key
    requires forall i, j {:trigger c.Src(i), c.Src(j)} | c.IsObject(i) && c.IsObject(j) && c.Src(i).key == c.Src(j).key :: i == j
    ensures DistinctKeys(c)
  {
    forall i, j | c.IsTask(i) && c.IsTask(j) && c.DstKey(i) == c.DstKey(j) ensures i == j {
      RemapIsInjective(c.Src(i).key, c.Src(j).key, c.srcPrefix, c.dstPrefix);
    }
  }

  // ---- A further run ----

  /** What a source has to tell truthfully for a copy to be recognised: its size, and its ETag if that is a plain digest. */
  ghost predicate IsTruthful(c: Config, md5: Text -> Text, i: nat)
    requires c.IsTask(i)
  {
    var src, body := c.Src(i), c.listing[i].object_.body;
    && !c.IsFolder(i) && src.size == |body|
    && (src.etag.Some? && IsPlainMd5(src.etag.value) ==> EqualIgnoringCase(NormalizeEtag(src.etag.value), NormalizeEtag(md5(body))))
  }

  /** A copy lands no earlier, give or take the skew, than the source says the object was modified. */
  predicate LandsAfter(c: Config, i: nat, now: I64) {
    c.IsTask(i) ==> c.Src(i).modified.Some? && SaturatingAdd(now, c.skew) >= c.Src(i).modified.value
  }

  function NoEarlierThanSource(c: Config): (nat, I64) -> bool {
    (i: nat, now: I64) => LandsAfter(c, i, now)
  }

  /** What was copied from a truthful source is recognised as up to date. */
  lemma CopiedIsUpToDate(c: Config, md5: Text -> Text, dst: map<Text, Stored>, i: nat)
    requires c.IsTask(i) && IsTruthful(c, md5, i) && c.mode != OverwriteAll
    requires c.DstKey(i).value in dst && dst[c.DstKey(i).value].body == c.Lands(i) && dst[c.DstKey(i).value].etag == Some(md5(c.Lands(i)))
    requires LandsAfter(c, i, dst[c.DstKey(i).value].modified)
    ensures Verdict(c, md5, dst, i).Skip?
  {
  }

  /** Nothing is copied where the rule says to skip everything. */
  ghost predicate Still(d0: map<Text, Stored>, s: State) {
    && s.dst == d0 && s.copied == 0 && s.bytes == 0
    && forall w | 0 <= w < |s.workers| :: !s.workers[w].Wanted? && !s.workers[w].InFlight()
  }

  lemma WorkerIsStill(c: Config, md5: Text -> Text, d0: map<Text, Stored>, s: State, w: nat, k: WorkerStep)
    requires forall i | c.IsTask(i) :: Verdict(c, md5, d0, i).Skip?
    requires w < |s.workers| && WorkerMay(c, s, s.workers[w], k) && Still(d0, s)
    ensures Still(d0, Apply(c, md5, s, ByWorker(w, k)))
  {
  }

  lemma {:induction false} StillAlways(c: Config, md5: Text -> Text, states: seq<State>, events: seq<Event>, n: nat)
    requires IsRun(c, md5, states, events) && n < |states|
    requires forall i | c.IsTask(i) :: Verdict(c, md5, states[0].dst, i).Skip?
    ensures Still(states[0].dst, states[n])
  {
    if n > 0 {
      var s := states[n - 1];
      StillAlways(c, md5, states, events, n - 1);
      RunStep(c, md5, states, events, n - 1);
      match events[n - 1]
      case Cancel =>
      case ParentDrops =>
      case ByLister(l) => ListerCommitsNothing(c, s, l); ListerKeepsDestination(c, s, l);
      case ByWorker(w, k) => WorkerIsStill(c, md5, states[0].dst, s, w, k);
    }
  }

  /** After a full run from a truthful source, in either incremental mode, a further run copies nothing at all. */
  lemma FurtherRunCopiesNothing(c: Config, md5: Text -> Text, states: seq<State>, events: seq<Event>,
                                again: seq<State>, againEvents: seq<Event>, n: nat)
    requires DistinctKeys(c) && IsFullRun(c, md5, states, events) && c.mode != OverwriteAll
    requires forall i | c.IsTask(i) :: IsTruthful(c, md5, i)
    requires AllTimely(states, events, NoEarlierThanSource(c))
    requires IsRun(c, md5, again, againEvents) && again[0].dst == states[|events|].dst && n < |again|
    ensures again[n].copied == 0 && again[n].bytes == 0 && again[n].dst == states[|events|].dst
  {
    var timely := NoEarlierThanSource(c);
    var d := states[|events|].dst;
    forall i | c.IsTask(i) ensures Verdict(c, md5, d, i).Skip? {
      FullRunSettlesAll(c, md5, states, events, i);
      TellsAlways(c, md5, timely, states, events, |events|, i);
      if states[|events|].fates[i].Copied? {
        CopiedIsUpToDate(c, md5, d, i);
      }
    }
    StillAlways(c, md5, again, againEvents, n);
  }
}
