/**
 * A sync run as steps: one lister, a bounded queue, a pool of workers sharing one receiver, and somebody who may ask
 * the run to stop.
 *
 * Everything between two awaits, and every atomic operation on a counter, is one step. Listed objects are known by
 * their position in the listing.
 */
module SyncRun {
  import opened Bytes
  import opened SyncPlan

  datatype Object = Object(src: Source, body: Text)

  /** What the pages of the listing hold, with a mark where each page begins. */
  datatype Entry = PageBreak | Listed(object_: Object)

  /** A stored object: its bytes, when they landed, and the ETag in its sidecar, which need not be theirs. */
  datatype Stored = Stored(body: Text, modified: I64, etag: Option<Text>)

  /**
   * What a copy that fails or is cancelled has done to its destination: nothing, the rename but not the sidecar, which
   * may then hold any old ETag, or both.
   */
  datatype Landing = Nothing | BytesOnly(left: Option<Text>) | Whole

  datatype Config = Config(
    listing: seq<Entry>, srcPrefix: Text, dstPrefix: Text,
    mode: Mode, skew: I64, verifyEtag: bool, maxObjects: Option<nat>, maxBytes: Option<nat>, concurrency: nat)
  {
    predicate Valid() {
      1 <= concurrency <= 16
    }

    predicate IsObject(i: nat) {
      i < |listing| && listing[i].Listed?
    }

    function Src(i: nat): Source
      requires IsObject(i)
    {
      listing[i].object_.src
    }

    function DstKey(i: nat): Option<Text>
      requires IsObject(i)
    {
      RemapKey(Src(i).key, srcPrefix, dstPrefix)
    }

    /** An object that is handed to the workers. */
    predicate IsTask(i: nat) {
      IsObject(i) && DstKey(i).Some?
    }

    predicate IsFolder(i: nat)
      requires IsTask(i)
    {
      DstKey(i).value[|DstKey(i).value| - 1..] == [SLASH]
    }

    /** The bytes a copy leaves: a folder placeholder has none, whatever the source holds. */
    function Lands(i: nat): Text
      requires IsTask(i)
    {
      if IsFolder(i) then [] else listing[i].object_.body
    }
  }

  datatype Lister = Starting | Ready | Fetching | Sending | Ended(ok: bool)

  datatype Worker =
    | Idle
    /** Holds the lock on the receiver and waits for a task. */
    | Receiving
    | Got(task: nat)
    | Deciding(task: nat)
    | Wanted(task: nat)
    | Opening(task: nat)
    /** Streams the body; `seen` cancel requests had been made when it began to watch for them. */
    | Copying(task: nat, seen: nat)
    | Landed(task: nat)
    | Counted(task: nat)
    | Gone
  {
    predicate HasTask() {
      Got? || Deciding? || Wanted? || Opening? || Copying? || Landed?
    }

    /** Past the check of the byte budget, and not yet in the byte counter. */
    predicate InFlight() {
      Opening? || Copying? || Landed? || Counted?
    }

    function Task(): nat {
      if Idle? || Receiving? || Gone? then 0 else task
    }
  }

  datatype Fate = Copied | Skipped | Failed | Dropped

  datatype State = State(
    lister: Lister, cursor: nat, seen: nat, planned: nat,
    queue: seq<nat>, workers: seq<Worker>, parentHolds: bool, cancels: nat,
    listed: nat, copied: nat, skipped: nat, failed: nat, dropped: nat, bytes: nat,
    dst: map<Text, Stored>, fates: map<nat, Fate>, inFlightAtCheck: nat)

  datatype ListerStep = Start | Stop | AskPage | PageFetched | PageFails | Take | Send | SendClosed | SendCancelled

  datatype WorkerStep =
    | Lock
    | Receive
    | ReceiveClosed
    | CheckCancel
    | Judge
    | CheckBudget
    | OpenFails
    | OpenDone
    | Land(now: I64)
    | CopyFails(landing: Landing, now: I64)
    | CopyCancelled(landing: Landing, now: I64)
    | CountCopied
    | CountBytes
  {
    /** Whether the step puts an object in place. */
    predicate Lands() {
      Land? || ((CopyFails? || CopyCancelled?) && !landing.Nothing?)
    }
  }

  datatype Event = Cancel | ParentDrops | ByLister(l: ListerStep) | ByWorker(w: nat, k: WorkerStep)

  // ---- The step system ----

  function Total(f: Worker -> nat, workers: seq<Worker>): nat {
    if workers == [] then 0 else f(workers[0]) + Total(f, workers[1..])
  }

  lemma {:induction false} TotalAfter(f: Worker -> nat, workers: seq<Worker>, w: nat, worker: Worker)
    requires w < |workers|
    ensures Total(f, workers[w := worker]) + f(workers[w]) == Total(f, workers) + f(worker)
  {
    if w == 0 {
      assert workers[0 := worker][1..] == workers[1..];
    } else {
      assert workers[w := worker][1..] == workers[1..][w - 1 := worker];
      TotalAfter(f, workers[1..], w - 1, worker);
    }
  }

  /** The bytes a copy reports once it is done. */
  function Reports(c: Config, i: nat): nat {
    if c.IsTask(i) then |c.Lands(i)| else 0
  }

  function SizeInFlight(c: Config): Worker -> nat {
    (w: Worker) => if w.InFlight() then Reports(c, w.Task()) else 0
  }

  predicate AllGone(workers: seq<Worker>) {
    forall w | 0 <= w < |workers| :: workers[w].Gone?
  }

  /** The receiver is gone: the parent let go of it and so did every worker. */
  predicate Closed(s: State) {
    !s.parentHolds && AllGone(s.workers)
  }

  predicate Unlocked(workers: seq<Worker>) {
    forall w | 0 <= w < |workers| :: !workers[w].Receiving?
  }

  predicate MustStop(c: Config, s: State) {
    || s.cursor >= |c.listing|
    || s.cancels > 0
    || (c.listing[s.cursor].Listed? && c.maxObjects.Some? && s.planned >= c.maxObjects.value)
  }

  /** The whole-object digest as the server gives it: the stored ETag unless that is a composite one, or else a hash. */
  function DigestOf(md5: Text -> Text, stored: Stored): Text {
    if stored.etag.Some? && DASH !in stored.etag.value then stored.etag.value else md5(stored.body)
  }

  /** The destination as the rule sees it: a stat, and under `verifyEtag` the digest. */
  function View(c: Config, md5: Text -> Text, dst: map<Text, Stored>, key: Text): Option<Local> {
    if key !in dst then None
    else Some(Local(|dst[key].body|, dst[key].modified, if c.verifyEtag then Some(DigestOf(md5, dst[key])) else None))
  }

  function Verdict(c: Config, md5: Text -> Text, dst: map<Text, Stored>, i: nat): Decision
    requires c.IsTask(i)
  {
    Decide(c.mode, c.Src(i), View(c, md5, dst, c.DstKey(i).value), c.skew)
  }

  predicate BudgetSpent(c: Config, s: State) {
    c.maxBytes.Some? && s.bytes >= c.maxBytes.value
  }

  predicate ListerMay(c: Config, s: State, l: ListerStep) {
    match l
    case Start => s.lister.Starting?
    case Stop => s.lister.Ready? && MustStop(c, s)
    case AskPage => s.lister.Ready? && !MustStop(c, s) && c.listing[s.cursor].PageBreak?
    case PageFetched => s.lister.Fetching?
    case PageFails => s.lister.Fetching?
    case Take => s.lister.Ready? && !MustStop(c, s) && c.listing[s.cursor].Listed?
    case Send => s.lister.Sending? && !Closed(s) && |s.queue| < 2 * c.concurrency
    case SendClosed => s.lister.Sending? && Closed(s)
    case SendCancelled => s.lister.Sending? && s.cancels > s.seen
  }

  predicate WorkerMay(c: Config, s: State, worker: Worker, k: WorkerStep) {
    match k
    case Lock => worker.Idle? && Unlocked(s.workers)
    case Receive => worker.Receiving? && s.queue != []
    case ReceiveClosed => worker.Receiving? && s.queue == [] && s.lister.Ended?
    case CheckCancel => worker.Got?
    case Judge => worker.Deciding? && c.IsTask(worker.task)
    case CheckBudget => worker.Wanted?
    case OpenFails => worker.Opening? && c.IsTask(worker.task) && !c.IsFolder(worker.task)
    case OpenDone => worker.Opening?
    case Land(_) => worker.Copying? && c.IsTask(worker.task)
    case CopyFails(_, _) => worker.Copying? && c.IsTask(worker.task)
    case CopyCancelled(_, _) => worker.Copying? && c.IsTask(worker.task) && !c.IsFolder(worker.task) && s.cancels > worker.seen
    case CountCopied => worker.Landed?
    case CountBytes => worker.Counted?
  }

  predicate Enabled(c: Config, s: State, e: Event) {
    match e
    case Cancel => true
    case ParentDrops => s.parentHolds
    case ByLister(l) => ListerMay(c, s, l)
    case ByWorker(w, k) => w < |s.workers| && WorkerMay(c, s, s.workers[w], k)
  }

  function Loses(s: State, i: nat): State {
    s.(dropped := s.dropped + 1, fates := s.fates[i := Dropped])
  }

  function Fails(s: State, i: nat): State {
    s.(failed := s.failed + 1, fates := s.fates[i := Failed])
  }

  /** The destination after a copy of object `i` has got as far as `landing` says. */
  function PutsSome(c: Config, md5: Text -> Text, dst: map<Text, Stored>, i: nat, landing: Landing, now: I64): map<Text, Stored>
    requires c.IsTask(i)
  {
    if landing.Nothing? then dst
    else dst[c.DstKey(i).value := Stored(c.Lands(i), now, if landing.Whole? then Some(md5(c.Lands(i))) else landing.left)]
  }

  function ListerDoes(c: Config, s: State, l: ListerStep): State
    requires ListerMay(c, s, l)
  {
    match l
    case Start => s.(lister := Ready, seen := s.cancels)
    case Stop => s.(lister := Ended(true))
    case AskPage => s.(lister := Fetching)
    case PageFetched => s.(lister := Ready, cursor := s.cursor + 1)
    case PageFails => s.(lister := Ended(false))
    case Take =>
      var t := s.(listed := s.listed + 1);
      if c.DstKey(s.cursor).Some? then t.(lister := Sending) else Fails(t, s.cursor).(cursor := s.cursor + 1)
    case Send => s.(lister := Ready, queue := s.queue + [s.cursor], planned := s.planned + 1, cursor := s.cursor + 1)
    case SendClosed => Loses(s, s.cursor).(lister := Ended(true), cursor := s.cursor + 1)
    case SendCancelled => Loses(s, s.cursor).(lister := Ended(true), cursor := s.cursor + 1)
  }

  /** What a worker becomes by its step. */
  function Becomes(c: Config, md5: Text -> Text, s: State, worker: Worker, k: WorkerStep): Worker
    requires WorkerMay(c, s, worker, k)
  {
    match k
    case Lock => Receiving
    case Receive => Got(s.queue[0])
    case ReceiveClosed => Gone
    case CheckCancel => if s.cancels > 0 then Gone else Deciding(worker.task)
    case Judge => if Verdict(c, md5, s.dst, worker.task).Copy? then Wanted(worker.task) else Idle
    case CheckBudget => if BudgetSpent(c, s) then Gone else Opening(worker.task)
    case OpenFails => Idle
    case OpenDone => Copying(worker.task, s.cancels)
    case Land(_) => Landed(worker.task)
    case CopyFails(_, _) => Idle
    case CopyCancelled(_, _) => Gone
    case CountCopied => Counted(worker.task)
    case CountBytes => Idle
  }

  /** What a worker's step does to everything but the workers. */
  function Effect(c: Config, md5: Text -> Text, s: State, worker: Worker, k: WorkerStep): State
    requires WorkerMay(c, s, worker, k)
  {
    match k
    case Lock => s
    case Receive => s.(queue := s.queue[1..])
    case ReceiveClosed => s
    case CheckCancel => if s.cancels > 0 then Loses(s, worker.task) else s
    case Judge =>
      if Verdict(c, md5, s.dst, worker.task).Copy? then s
      else s.(skipped := s.skipped + 1, fates := s.fates[worker.task := Skipped])
    case CheckBudget =>
      if BudgetSpent(c, s) then Loses(s, worker.task)
      else s.(inFlightAtCheck := Total(SizeInFlight(c), s.workers) + Reports(c, worker.task))
    case OpenFails => Fails(s, worker.task)
    case OpenDone => s
    case Land(now) => s.(dst := PutsSome(c, md5, s.dst, worker.task, Whole, now))
    case CopyFails(landing, now) => Fails(s, worker.task).(dst := PutsSome(c, md5, s.dst, worker.task, landing, now))
    case CopyCancelled(landing, now) => Loses(s, worker.task).(dst := PutsSome(c, md5, s.dst, worker.task, landing, now))
    case CountCopied => s.(copied := s.copied + 1, fates := s.fates[worker.task := Copied])
    case CountBytes => s.(bytes := s.bytes + Reports(c, worker.task))
  }

  function Apply(c: Config, md5: Text -> Text, s: State, e: Event): State
    requires Enabled(c, s, e)
  {
    match e
    case Cancel => s.(cancels := s.cancels + 1)
    case ParentDrops => s.(parentHolds := false)
    case ByLister(l) => ListerDoes(c, s, l)
    case ByWorker(w, k) =>
      var worker := s.workers[w];
      Effect(c, md5, s, worker, k).(workers := s.workers[w := Becomes(c, md5, s, worker, k)])
  }

  ghost predicate IsInit(c: Config, s: State) {
    && s.lister == Starting && s.cursor == 0 && s.seen == 0 && s.planned == 0
    && s.queue == [] && |s.workers| == c.concurrency && (forall w | 0 <= w < |s.workers| :: s.workers[w] == Idle)
    && s.parentHolds
    && s.listed == s.copied == s.skipped == s.failed == s.dropped == s.bytes == s.inFlightAtCheck == 0
    && s.fates == map[]
  }

  ghost predicate Connected(c: Config, md5: Text -> Text, states: seq<State>, events: seq<Event>) {
    forall o: int {:trigger Opened(o)} | Opened(o) ::
      |states| == |events| + 1
      && forall i | 0 <= i < |events| :: Enabled(c, states[i], events[i]) && states[i + 1] == Apply(c, md5, states[i], events[i])
  }

  ghost predicate IsRun(c: Config, md5: Text -> Text, states: seq<State>, events: seq<Event>) {
    c.Valid() && |states| == |events| + 1 && IsInit(c, states[0]) && Connected(c, md5, states, events)
  }

  lemma RunStep(c: Config, md5: Text -> Text, states: seq<State>, events: seq<Event>, i: nat)
    requires Connected(c, md5, states, events) && i < |events| && |states| == |events| + 1
    ensures Enabled(c, states[i], events[i]) && states[i + 1] == Apply(c, md5, states[i], events[i])
  {
    assert Opened(0);
  }

  /** One more step. */
  lemma Extended(c: Config, md5: Text -> Text, states: seq<State>, events: seq<Event>, e: Event)
    requires IsRun(c, md5, states, events) && Enabled(c, states[|events|], e)
    ensures IsRun(c, md5, states + [Apply(c, md5, states[|events|], e)], events + [e])
  {
    assert Opened(0);
    var states', events' := states + [Apply(c, md5, states[|events|], e)], events + [e];
    forall i | 0 <= i < |events'| ensures Enabled(c, states'[i], events'[i]) && states'[i + 1] == Apply(c, md5, states'[i], events'[i]) {
      if i < |events| {
        RunStep(c, md5, states, events, i);
      }
    }
  }

  /** Nobody is left to do anything. */
  predicate Final(s: State) {
    s.lister.Ended? && Closed(s)
  }

  /** Whatever is in a queue or in a worker's hands came out of the listing. */
  ghost predicate Sound(c: Config, s: State) {
    && |s.workers| == c.concurrency
    && s.cursor <= |c.listing|
    && (s.lister.Fetching? ==> s.cursor < |c.listing| && c.listing[s.cursor].PageBreak?)
    && (s.lister.Sending? ==> c.IsTask(s.cursor))
    && (forall j | 0 <= j < |s.queue| :: c.IsTask(s.queue[j]))
    && (forall w | 0 <= w < |s.workers| :: HoldsTask(c, s.workers[w]))
  }

  ghost predicate HoldsTask(c: Config, worker: Worker) {
    worker.HasTask() || worker.Counted? ==> c.IsTask(worker.Task())
  }

  lemma WorkerHoldsTask(c: Config, md5: Text -> Text, s: State, worker: Worker, k: WorkerStep)
    requires WorkerMay(c, s, worker, k) && HoldsTask(c, worker)
    requires forall j | 0 <= j < |s.queue| :: c.IsTask(s.queue[j])
    ensures HoldsTask(c, Becomes(c, md5, s, worker, k))
    ensures var t := Effect(c, md5, s, worker, k);
      && t.lister == s.lister && t.cursor == s.cursor
      && t.queue == if k.Receive? then s.queue[1..] else s.queue
  {
  }

  lemma WorkerIsSound(c: Config, md5: Text -> Text, s: State, w: nat, k: WorkerStep)
    requires w < |s.workers| && WorkerMay(c, s, s.workers[w], k) && Sound(c, s)
    ensures Sound(c, Apply(c, md5, s, ByWorker(w, k)))
  {
    var became := Becomes(c, md5, s, s.workers[w], k);
    var t := Apply(c, md5, s, ByWorker(w, k));
    WorkerHoldsTask(c, md5, s, s.workers[w], k);
    assert t.workers == s.workers[w := became];
    forall v | 0 <= v < |t.workers| ensures HoldsTask(c, t.workers[v]) {
      assert v != w ==> HoldsTask(c, s.workers[v]);
    }
  }

  lemma ListerIsSound(c: Config, s: State, l: ListerStep)
    requires ListerMay(c, s, l) && Sound(c, s)
    ensures Sound(c, ListerDoes(c, s, l))
  {
  }

  lemma {:induction false} SoundAlways(c: Config, md5: Text -> Text, states: seq<State>, events: seq<Event>, i: nat)
    requires IsRun(c, md5, states, events) && i < |states|
    ensures Sound(c, states[i])
  {
    if i > 0 {
      var s := states[i - 1];
      SoundAlways(c, md5, states, events, i - 1);
      RunStep(c, md5, states, events, i - 1);
      match events[i - 1]
      case Cancel =>
      case ParentDrops =>
      case ByLister(l) => ListerIsSound(c, s, l);
      case ByWorker(w, k) => WorkerIsSound(c, md5, s, w, k);
    }
  }
}
