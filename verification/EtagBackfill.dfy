/**
 * ETags of one object key under concurrent writers and readers.
 *
 * A write puts a new file in place by rename and then writes the sidecar; a read that finds no
 * usable ETag hashes the file and writes the result back, stamped with the file it was computed
 * from. Every rename, file removal, sidecar read and sidecar write is one step.
 */
module EtagBackfill {
  import opened Bytes

  type ETag = Text

  /** A file version is named by its stamp; no two versions share one. */
  type Version = nat

  type Md5 = Text -> ETag

  /** The bytes of a version, and the ETag its writer stores: their MD5, or a composite one. */
  datatype Written = Written(body: Text, etag: ETag)

  datatype Info = Info(etag: Option<ETag>, stamp: Option<Version>)

  /** The ETag in a sidecar, unless it was backfilled for another version of the file. */
  function StoredEtag(info: Info, meta: Version): Option<ETag> {
    if info.stamp.Some? && info.stamp.value != meta then None else info.etag
  }

  function UsableEtag(info: Option<Info>, meta: Version): Option<ETag> {
    if info.Some? then StoredEtag(info.value, meta) else None
  }

  datatype WriterStep = Landed(version: Version) | Removed

  datatype ReaderStep =
    | Statted
    | Loaded(info: Option<Info>)
    | Waiting(info: Option<Info>)
    | Locked(info: Option<Info>)
    | Rechecked(info: Option<Info>)
    | Hashed(info: Option<Info>, etag: ETag, of: Version)
    | Verified(info: Option<Info>, etag: ETag)
    | Resolved(etag: ETag)
    | Done(etag: ETag, calm: bool)

  /** `meta` is the version being served; `epoch` and `quiet` record how the writes stood at the start. */
  datatype Reader = Reader(meta: Version, epoch: nat, quiet: bool, step: ReaderStep) {
    predicate HoldsLock() {
      step.Locked? || step.Rechecked? || step.Hashed? || step.Verified? || step.Resolved?
    }
  }

  datatype State = State(
    versions: seq<Written>,
    file: Option<Version>,
    sidecar: Option<Info>,
    writers: map<nat, WriterStep>,
    readers: map<nat, Reader>,
    lock: Option<nat>,
    epoch: nat,
    hashes: nat)

  datatype Event =
    | Land(w: nat, written: Written)
    | SaveSidecar(w: nat)
    | RemoveFile(w: nat)
    | RemoveSidecar(w: nat)
    /** A request dropped, or failing, between its two steps. */
    | Abandon(w: nat)
    | Stat(r: nat)
    | Load(r: nat)
    | Resolve(r: nat)
    | Acquire(r: nat)
    | Recheck(r: nat)
    | Hash(r: nat)
    /** There is no file to hash any more: the request fails. */
    | HashFails(r: nat)
    | Restat(r: nat)
    | Save(r: nat, ok: bool)
    | Finish(r: nat)
    | Cancel(r: nat)
  {
    predicate BeginsWrite() {
      Land? || RemoveFile?
    }

    predicate EndsEarly() {
      Cancel? || HashFails?
    }

    /** A step of a reader under way. */
    predicate ByReader() {
      !ByWriter() && !Stat? && !Cancel?
    }

    /** A step of a PUT, a multipart completion or a delete. */
    predicate ByWriter() {
      Land? || SaveSidecar? || RemoveFile? || RemoveSidecar? || Abandon?
    }
  }

  predicate Enabled(s: State, e: Event) {
    match e
    case Land(w, _) => w !in s.writers
    case SaveSidecar(w) => w in s.writers && s.writers[w].Landed? && s.writers[w].version < |s.versions|
    case RemoveFile(w) => w !in s.writers && s.file.Some?
    case RemoveSidecar(w) => w in s.writers && s.writers[w].Removed?
    case Abandon(w) => w in s.writers
    case Stat(r) => r !in s.readers && s.file.Some?
    case Load(r) => r in s.readers && s.readers[r].step.Statted?
    case Resolve(r) => r in s.readers && s.readers[r].step.Loaded?
    case Acquire(r) => r in s.readers && s.readers[r].step.Waiting? && s.lock.None?
    case Recheck(r) => r in s.readers && s.readers[r].step.Locked?
    case Hash(r) => r in s.readers && s.readers[r].step.Rechecked? && s.file.Some? && s.file.value < |s.versions|
    case HashFails(r) => r in s.readers && s.readers[r].step.Rechecked? && s.file.None?
    case Restat(r) => r in s.readers && s.readers[r].step.Hashed?
    case Save(r, _) => r in s.readers && s.readers[r].step.Verified?
    case Finish(r) => r in s.readers && s.readers[r].step.Resolved?
    case Cancel(r) => r in s.readers && !s.readers[r].step.Done?
  }

  function To(s: State, r: nat, step: ReaderStep): State
    requires r in s.readers
  {
    s.(readers := s.readers[r := s.readers[r].(step := step)])
  }

  /** Whether no write has begun or ended since the reader started, and none was under way then. */
  predicate Calm(s: State, reader: Reader) {
    reader.quiet && reader.epoch == s.epoch
  }

  /** A request that ends early takes its guard with it. */
  function Leave(s: State, r: nat): State {
    s.(readers := s.readers - {r}, lock := if s.lock == Some(r) then None else s.lock)
  }

  function Apply(md5: Md5, s: State, e: Event): State
    requires Enabled(s, e)
  {
    match e
    case Land(w, written) =>
      s.(versions := s.versions + [written], file := Some(|s.versions|),
         writers := s.writers[w := Landed(|s.versions|)], epoch := s.epoch + 1)
    case SaveSidecar(w) =>
      var v := s.writers[w].version;
      s.(sidecar := Some(Info(Some(s.versions[v].etag), None)),
         writers := s.writers - {w}, epoch := s.epoch + 1)
    case RemoveFile(w) =>
      s.(file := None, writers := s.writers[w := Removed], epoch := s.epoch + 1)
    case RemoveSidecar(w) =>
      s.(sidecar := None, writers := s.writers - {w}, epoch := s.epoch + 1)
    case Abandon(w) =>
      s.(writers := s.writers - {w}, epoch := s.epoch + 1)
    case Stat(r) =>
      s.(readers := s.readers[r := Reader(s.file.value, s.epoch, s.writers == map[], Statted)])
    case Load(r) =>
      To(s, r, Loaded(s.sidecar))
    case Resolve(r) =>
      var reader := s.readers[r];
      var info := reader.step.info;
      if UsableEtag(info, reader.meta).Some? then To(s, r, Done(UsableEtag(info, reader.meta).value, Calm(s, reader)))
      else To(s, r, Waiting(if info.Some? && info.value.stamp.Some? then None else info))
    case Acquire(r) =>
      To(s.(lock := Some(r)), r, Locked(s.readers[r].step.info))
    case Recheck(r) =>
      var found := UsableEtag(s.sidecar, s.readers[r].meta);
      if found.Some? then To(s, r, Resolved(found.value)) else To(s, r, Rechecked(s.readers[r].step.info))
    case Hash(r) =>
      var v := s.file.value;
      To(s.(hashes := s.hashes + 1), r, Hashed(s.readers[r].step.info, md5(s.versions[v].body), v))
    case Restat(r) =>
      var reader := s.readers[r];
      if s.file == Some(reader.meta) then To(s, r, Verified(reader.step.info, reader.step.etag))
      else To(s, r, Resolved(reader.step.etag))
    case Save(r, ok) =>
      var reader := s.readers[r];
      var after := To(s, r, Resolved(reader.step.etag));
      if ok then after.(sidecar := Some(Info(Some(reader.step.etag), Some(reader.meta)))) else after
    case Finish(r) =>
      To(s.(lock := None), r, Done(s.readers[r].step.etag, Calm(s, s.readers[r])))
    case HashFails(r) => Leave(s, r)
    case Cancel(r) => Leave(s, r)
  }

  // ---- Runs ----

  ghost predicate IsRun(md5: Md5, states: seq<State>, events: seq<Event>) {
    && |states| == |events| + 1
    && forall i | 0 <= i < |events| :: Enabled(states[i], events[i]) && states[i + 1] == Apply(md5, states[i], events[i])
  }

  ghost predicate StampIsTrue(md5: Md5, versions: seq<Written>, info: Option<Info>) {
    info.Some? && info.value.stamp.Some? ==>
      && info.value.stamp.value < |versions|
      && info.value.etag == Some(md5(versions[info.value.stamp.value].body))
  }

  /** Nothing is running. A sidecar, if there is one, is a writer's, a backfill's, or predates stored ETags. */
  ghost predicate Init(md5: Md5, s: State) {
    && s.writers == map[] && s.readers == map[] && s.lock.None? && s.hashes == 0
    && (s.file.Some? ==> s.file.value + 1 == |s.versions|)
    && StampIsTrue(md5, s.versions, s.sidecar)
    && (s.sidecar.Some? && s.sidecar.value.stamp.None? ==>
      && s.file.Some?
      && (s.sidecar.value.etag.Some? ==> s.sidecar.value.etag.value == s.versions[s.file.value].etag))
  }

  // ---- Any interleaving: a stamp tells the truth ----

  /** What a reader carries from the hash to the write-back. */
  ghost predicate ReaderIsTrue(md5: Md5, s: State, reader: Reader) {
    && reader.meta < |s.versions|
    && (reader.step.Waiting? || reader.step.Locked? || reader.step.Rechecked? || reader.step.Hashed? || reader.step.Verified? ==>
      reader.step.info.Some? ==> reader.step.info.value == Info(None, None))
    && (reader.step.Loaded? ==> StampIsTrue(md5, s.versions, reader.step.info))
    && (reader.step.Hashed? ==>
      && reader.meta <= reader.step.of < |s.versions|
      && reader.step.etag == md5(s.versions[reader.step.of].body))
    && (reader.step.Verified? ==> reader.step.etag == md5(s.versions[reader.meta].body))
  }

  ghost predicate Truthful(md5: Md5, s: State) {
    && (s.file.Some? ==> s.file.value + 1 == |s.versions|)
    && (forall w | w in s.writers && s.writers[w].Landed? :: s.writers[w].version < |s.versions|)
    && StampIsTrue(md5, s.versions, s.sidecar)
    && forall r | r in s.readers :: ReaderIsTrue(md5, s, s.readers[r])
  }

  lemma TruthfulSidecar(md5: Md5, s: State, e: Event)
    requires Truthful(md5, s) && Enabled(s, e) && !e.ByWriter()
    ensures var t := Apply(md5, s, e);
      && t.versions == s.versions && t.file == s.file && t.writers == s.writers
      && StampIsTrue(md5, t.versions, t.sidecar)
      && (forall r | r in t.readers && r != e.r :: r in s.readers && t.readers[r] == s.readers[r])
  {
  }

  lemma TruthfulReader(md5: Md5, s: State, e: Event)
    requires Truthful(md5, s) && Enabled(s, e) && !e.ByWriter() && !e.EndsEarly()
    ensures ReaderIsTrue(md5, Apply(md5, s, e), Apply(md5, s, e).readers[e.r])
  {
    if !e.Stat? {
      assert ReaderIsTrue(md5, s, s.readers[e.r]);
    }
  }

  lemma TruthfulReaderStep(md5: Md5, s: State, e: Event)
    requires Truthful(md5, s) && Enabled(s, e) && !e.ByWriter()
    ensures Truthful(md5, Apply(md5, s, e))
  {
    TruthfulSidecar(md5, s, e);
    if !e.EndsEarly() {
      TruthfulReader(md5, s, e);
    }
  }

  lemma TruthfulStep(md5: Md5, s: State, e: Event)
    requires Truthful(md5, s) && Enabled(s, e)
    ensures Truthful(md5, Apply(md5, s, e))
  {
    if e.ByWriter() {
    } else {
      TruthfulReaderStep(md5, s, e);
    }
  }

  lemma {:induction false} TruthfulAlways(md5: Md5, states: seq<State>, events: seq<Event>, i: nat)
    requires IsRun(md5, states, events) && Init(md5, states[0]) && i < |states|
    ensures Truthful(md5, states[i])
  {
    if i > 0 {
      TruthfulAlways(md5, states, events, i - 1);
      TruthfulStep(md5, states[i - 1], events[i - 1]);
    }
  }

  /** In every interleaving, a stamped sidecar holds the MD5 of exactly the version its stamp names. */
  lemma StampedSidecarIsTrue(md5: Md5, states: seq<State>, events: seq<Event>, i: nat)
    requires IsRun(md5, states, events) && Init(md5, states[0]) && i < |states|
    requires states[i].sidecar.Some? && states[i].sidecar.value.stamp.Some?
    ensures states[i].sidecar.value.stamp.value < |states[i].versions|
    ensures states[i].sidecar.value.etag == Some(md5(states[i].versions[states[i].sidecar.value.stamp.value].body))
  {
    TruthfulAlways(md5, states, events, i);
  }

  // ---- What is read while no write is under way ----

  /** An ETag of version `v`: the one its writer stored, or the MD5 of its bytes. */
  ghost predicate Right(md5: Md5, s: State, v: Version, etag: ETag) {
    v < |s.versions| && (etag == s.versions[v].etag || etag == md5(s.versions[v].body))
  }

  ghost predicate UsableIsRight(md5: Md5, s: State, info: Option<Info>, v: Version) {
    UsableEtag(info, v).Some? ==> Right(md5, s, v, UsableEtag(info, v).value)
  }

  ghost predicate ReaderIsRight(md5: Md5, s: State, reader: Reader) {
    && reader.epoch <= s.epoch
    && (reader.step.Done? && reader.step.calm ==> Right(md5, s, reader.meta, reader.step.etag))
    && (Calm(s, reader) ==>
      && s.writers == map[] && s.file == Some(reader.meta)
      && (reader.step.Loaded? ==> UsableIsRight(md5, s, reader.step.info, reader.meta))
      && (reader.step.Hashed? ==> reader.step.of == reader.meta)
      && (reader.step.Resolved? ==> Right(md5, s, reader.meta, reader.step.etag)))
  }

  /** Between writes the sidecar never offers a wrong ETag for the file in place. */
  ghost predicate Orderly(md5: Md5, s: State) {
    && (s.writers == map[] && s.file.Some? ==> UsableIsRight(md5, s, s.sidecar, s.file.value))
    && forall r | r in s.readers :: ReaderIsRight(md5, s, s.readers[r])
  }

  /** This step ends the only write under way, and a file is in place. */
  predicate EndsLastWrite(s: State, e: Event)
    requires Enabled(s, e)
  {
    (e.SaveSidecar? || e.Abandon?) && s.writers.Keys == {e.w} && s.file.Some?
  }

  /**
   * The last of overlapping writes to end saves an ETag that is right for the file in place; or, if it is given up,
   * leaves no unstamped ETag that is wrong for it.
   */
  ghost predicate LeavesRight(md5: Md5, s: State, e: Event)
    requires Enabled(s, e)
  {
    EndsLastWrite(s, e) ==>
      if e.SaveSidecar? then Right(md5, s, s.file.value, s.versions[s.writers[e.w].version].etag)
      else s.sidecar.Some? && s.sidecar.value.stamp.None? && s.sidecar.value.etag.Some? ==> Right(md5, s, s.file.value, s.sidecar.value.etag.value)
  }

  lemma LastWriter(writers: map<nat, WriterStep>, w: nat)
    requires w in writers
    ensures writers - {w} == map[] <==> writers.Keys == {w}
  {
    assert (writers - {w}).Keys == writers.Keys - {w};
    assert writers.Keys == (writers.Keys - {w}) + {w};
    assert writers - {w} == map[] <==> (writers - {w}).Keys == {};
  }

  /** That is just what it takes for the sidecar to offer nothing wrong when the last write has ended. */
  lemma LeavesRightIff(md5: Md5, s: State, e: Event)
    requires Truthful(md5, s) && Enabled(s, e) && e.ByWriter()
    ensures var t := Apply(md5, s, e);
      t.writers == map[] && t.file.Some? ==> (LeavesRight(md5, s, e) <==> UsableIsRight(md5, t, t.sidecar, t.file.value))
    ensures EndsLastWrite(s, e) ==> Apply(md5, s, e).writers == map[]
  {
    var t := Apply(md5, s, e);
    if e.BeginsWrite() {
      assert e.w in t.writers;
    } else {
      LastWriter(s.writers, e.w);
      assert t.writers == s.writers - {e.w} && t.file == s.file && t.versions == s.versions;
    }
  }

  /** A write ends the calm of every reader under way. */
  lemma OrderlyWriterStep(md5: Md5, s: State, e: Event)
    requires Truthful(md5, s) && Orderly(md5, s) && Enabled(s, e) && e.ByWriter() && LeavesRight(md5, s, e)
    ensures Orderly(md5, Apply(md5, s, e))
  {
    var t := Apply(md5, s, e);
    LeavesRightIff(md5, s, e);
    forall r | r in t.readers ensures ReaderIsRight(md5, t, t.readers[r]) {
      assert ReaderIsRight(md5, s, s.readers[r]) && !Calm(t, t.readers[r]);
    }
  }

  /** The sidecar offers nothing wrong for the file in place, whatever a reader has just done to it. */
  lemma OrderlySidecar(md5: Md5, s: State, e: Event)
    requires Truthful(md5, s) && Orderly(md5, s) && Enabled(s, e) && !e.ByWriter()
    ensures var t := Apply(md5, s, e);
      && t.versions == s.versions && t.file == s.file && t.writers == s.writers && t.epoch == s.epoch
      && (t.writers == map[] && t.file.Some? ==> UsableIsRight(md5, t, t.sidecar, t.file.value))
  {
    if e.Save? {
      assert ReaderIsTrue(md5, s, s.readers[e.r]);
    }
  }

  lemma OrderlyReader(md5: Md5, s: State, e: Event)
    requires Truthful(md5, s) && Orderly(md5, s) && Enabled(s, e) && !e.ByWriter() && !e.EndsEarly()
    ensures ReaderIsRight(md5, Apply(md5, s, e), Apply(md5, s, e).readers[e.r])
  {
    if !e.Stat? {
      assert ReaderIsRight(md5, s, s.readers[e.r]) && ReaderIsTrue(md5, s, s.readers[e.r]);
    }
  }

  lemma OrderlyStep(md5: Md5, s: State, e: Event)
    requires Truthful(md5, s) && Orderly(md5, s) && Enabled(s, e) && LeavesRight(md5, s, e)
    ensures Orderly(md5, Apply(md5, s, e))
  {
    if e.ByWriter() {
      OrderlyWriterStep(md5, s, e);
    } else {
      OrderlySidecar(md5, s, e);
      TruthfulSidecar(md5, s, e);
      forall r | r in Apply(md5, s, e).readers ensures ReaderIsRight(md5, Apply(md5, s, e), Apply(md5, s, e).readers[r]) {
        if r == e.r {
          OrderlyReader(md5, s, e);
        } else {
          assert ReaderIsRight(md5, s, s.readers[r]);
        }
      }
    }
  }

  ghost predicate AllLeaveRight(md5: Md5, states: seq<State>, events: seq<Event>)
    requires IsRun(md5, states, events)
  {
    forall i | 0 <= i < |events| :: LeavesRight(md5, states[i], events[i])
  }

  lemma {:induction false} OrderlyAlways(md5: Md5, states: seq<State>, events: seq<Event>, i: nat)
    requires IsRun(md5, states, events) && AllLeaveRight(md5, states, events) && i < |states|
    requires Truthful(md5, states[0]) && Orderly(md5, states[0])
    ensures Truthful(md5, states[i]) && Orderly(md5, states[i])
  {
    if i > 0 {
      OrderlyAlways(md5, states, events, i - 1);
      TruthfulStep(md5, states[i - 1], events[i - 1]);
      OrderlyStep(md5, states[i - 1], events[i - 1]);
    }
  }

  /** Every read that ran wholly between writes has answered rightly. */
  ghost predicate CalmReadsAreRight(md5: Md5, s: State) {
    forall r | r in s.readers && s.readers[r].step.Done? && s.readers[r].step.calm :: Right(md5, s, s.readers[r].meta, s.readers[r].step.etag)
  }

  /** From `s` on, readers do their steps and no writer does. */
  ghost predicate ReadsOn(md5: Md5, s: State, states: seq<State>, events: seq<Event>) {
    IsRun(md5, states, events) && states[0] == s && forall k | 0 <= k < |events| :: !events[k].ByWriter()
  }

  /** However reads go on from here, those that run wholly between writes answer rightly. */
  ghost predicate NeverMisreports(md5: Md5, s: State) {
    forall states: seq<State>, events: seq<Event> | ReadsOn(md5, s, states, events) :: CalmReadsAreRight(md5, states[|events|])
  }

  lemma OrderlyNeverMisreports(md5: Md5, s: State)
    requires Truthful(md5, s) && Orderly(md5, s)
    ensures NeverMisreports(md5, s)
  {
    forall states: seq<State>, events: seq<Event> | ReadsOn(md5, s, states, events) ensures CalmReadsAreRight(md5, states[|events|]) {
      OrderlyAlways(md5, states, events, |events|);
      var t := states[|events|];
      assert forall r | r in t.readers :: ReaderIsRight(md5, t, t.readers[r]);
    }
  }

  lemma {:induction false} FreshReader(readers: set<nat>) returns (r: nat)
    ensures forall k | k in readers :: k < r
  {
    if readers == {} {
      r := 0;
    } else {
      var k :| k in readers;
      var rest := FreshReader(readers - {k});
      r := if rest > k then rest else k + 1;
      assert forall j | j in readers :: j == k || j in readers - {k};
    }
  }

  /** A wrong ETag left behind is reported by the next read. */
  lemma WrongEtagIsReported(md5: Md5, s: State)
    requires s.writers == map[] && s.file.Some? && UsableEtag(s.sidecar, s.file.value).Some?
    requires !Right(md5, s, s.file.value, UsableEtag(s.sidecar, s.file.value).value)
    ensures !NeverMisreports(md5, s)
  {
    var r := FreshReader(s.readers.Keys);
    var v, etag := s.file.value, UsableEtag(s.sidecar, s.file.value).value;
    var s1 := s.(readers := s.readers[r := Reader(v, s.epoch, true, Statted)]);
    var s2 := s.(readers := s.readers[r := Reader(v, s.epoch, true, Loaded(s.sidecar))]);
    var s3 := s.(readers := s.readers[r := Reader(v, s.epoch, true, Done(etag, true))]);
    assert r !in s.readers;
    var states, events := [s, s1, s2, s3], [Stat(r), Load(r), Resolve(r)];
    assert Apply(md5, s, Stat(r)) == s1 && Apply(md5, s1, Load(r)) == s2 && Apply(md5, s2, Resolve(r)) == s3;
    assert ReadsOn(md5, s, states, events);
    assert states[|events|] == s3;
    assert r in s3.readers && s3.readers[r] == Reader(v, s.epoch, true, Done(etag, true));
    assert !Right(md5, s3, v, etag);
    assert !CalmReadsAreRight(md5, states[|events|]);
  }

  lemma MisreportsUnlessRight(md5: Md5, s: State, e: Event)
    requires Truthful(md5, s) && Enabled(s, e)
    ensures NeverMisreports(md5, Apply(md5, s, e)) ==> LeavesRight(md5, s, e)
  {
    if !LeavesRight(md5, s, e) {
      LeavesRightIff(md5, s, e);
      WrongEtagIsReported(md5, Apply(md5, s, e));
    }
  }

  /**
   * In any interleaving of writes that overlap or are given up: all reads that run wholly between writes, those of the
   * run and any that could follow at any point of it, answer rightly if and only if each write that ends last leaves a
   * right ETag, or none, for the file in place.
   */
  lemma ReadsAreRightIff(md5: Md5, states: seq<State>, events: seq<Event>)
    requires IsRun(md5, states, events) && Init(md5, states[0])
    ensures (forall i | 0 <= i < |states| :: NeverMisreports(md5, states[i])) <==> AllLeaveRight(md5, states, events)
  {
    if AllLeaveRight(md5, states, events) {
      forall i | 0 <= i < |states| ensures NeverMisreports(md5, states[i]) {
        OrderlyAlways(md5, states, events, i);
        OrderlyNeverMisreports(md5, states[i]);
      }
    }
    if forall i | 0 <= i < |states| :: NeverMisreports(md5, states[i]) {
      forall i | 0 <= i < |events| ensures LeavesRight(md5, states[i], events[i]) {
        TruthfulAlways(md5, states, events, i);
        MisreportsUnlessRight(md5, states[i], events[i]);
        assert NeverMisreports(md5, states[i + 1]);
      }
    }
  }

  /** Every step of a write ends the calm of all readers under way, and a reader that starts amid a write has none. */
  lemma WritesEndCalm(md5: Md5, s: State, e: Event, r: nat)
    requires Orderly(md5, s) && Enabled(s, e) && (e.ByWriter() || s.writers != map[])
    requires r in Apply(md5, s, e).readers && (e.Stat? || e.ByWriter()) && (e.Stat? ==> r == e.r)
    ensures !Calm(Apply(md5, s, e), Apply(md5, s, e).readers[r])
  {
    assert !e.Stat? ==> ReaderIsRight(md5, s, s.readers[r]);
  }

  // ---- Writes one after another ----

  /** Writes to the key do not overlap, and none is given up half way. */
  ghost predicate Serialised(states: seq<State>, events: seq<Event>)
    requires |states| == |events| + 1
  {
    forall i | 0 <= i < |events| :: !events[i].Abandon? && (events[i].BeginsWrite() ==> states[i].writers == map[])
  }

  ghost predicate Lone(s: State) {
    && |s.writers| <= 1
    && (forall w | w in s.writers :: if s.writers[w].Landed? then s.file == Some(s.writers[w].version) else s.file.None?)
  }

  lemma LoneStep(md5: Md5, s: State, e: Event)
    requires Truthful(md5, s) && Lone(s) && Enabled(s, e) && (e.BeginsWrite() ==> s.writers == map[])
    ensures Lone(Apply(md5, s, e))
  {
    var t := Apply(md5, s, e);
    if e.ByWriter() && !e.BeginsWrite() {
      assert t.writers.Keys == s.writers.Keys - {e.w};
      assert |t.writers.Keys| == |s.writers.Keys| - 1;
    }
  }

  lemma {:induction false} LoneAlways(md5: Md5, states: seq<State>, events: seq<Event>, i: nat)
    requires IsRun(md5, states, events) && Serialised(states, events) && Init(md5, states[0]) && i < |states|
    ensures Lone(states[i])
  {
    if i > 0 {
      LoneAlways(md5, states, events, i - 1);
      TruthfulAlways(md5, states, events, i - 1);
      LoneStep(md5, states[i - 1], events[i - 1]);
    }
  }

  /**
   * With writes one after another, a GET or HEAD that runs wholly between two of them answers with an ETag of the
   * bytes it serves, however many late write-backs there are.
   */
  lemma ReadsBetweenWritesAreRight(md5: Md5, states: seq<State>, events: seq<Event>, i: nat, r: nat)
    requires IsRun(md5, states, events) && Serialised(states, events) && Init(md5, states[0]) && i < |states|
    requires r in states[i].readers && states[i].readers[r].step.Done? && states[i].readers[r].step.calm
    ensures Right(md5, states[i], states[i].readers[r].meta, states[i].readers[r].step.etag)
  {
    forall k | 0 <= k < |events| ensures LeavesRight(md5, states[k], events[k]) {
      LoneAlways(md5, states, events, k);
    }
    ReadsAreRightIff(md5, states, events);
    assert NeverMisreports(md5, states[i]);
    assert ReadsOn(md5, states[i], [states[i]], []);
  }

  /**
   * A PUT that is dropped between its rename and its sidecar leaves a right sidecar only where the old one has no
   * ETag that counts for any version, or one that happens to be right for the new bytes.
   */
  lemma DroppedPutLeavesRightIff(md5: Md5, s: State, w: nat, written: Written)
    requires Truthful(md5, s) && s.writers == map[]
    ensures Enabled(s, Land(w, written)) && Enabled(Apply(md5, s, Land(w, written)), Abandon(w))
    ensures LeavesRight(md5, Apply(md5, s, Land(w, written)), Abandon(w)) <==>
      || s.sidecar.None? || s.sidecar.value.stamp.Some? || s.sidecar.value.etag.None?
      || s.sidecar.value.etag.value == written.etag || s.sidecar.value.etag.value == md5(written.body)
  {
    var t := Apply(md5, s, Land(w, written));
    assert t.writers.Keys == {w};
    assert t.versions[|s.versions|] == written;
  }

  /**
   * An overlap that goes wrong. Two PUTs that save their sidecars in the other order than they landed
   * leave the first one's ETag on the second one's file, and a read between writes reports it.
   */
  lemma RacingWritesMisreport(md5: Md5, a: Text, b: Text)
    requires md5(a) != md5(b)
    ensures exists states: seq<State>, events: seq<Event> ::
      && IsRun(md5, states, events) && Init(md5, states[0])
      && var s := states[|events|];
         0 in s.readers && s.readers[0].step.Done? && s.readers[0].step.calm
         && !Right(md5, s, s.readers[0].meta, s.readers[0].step.etag)
  {
    var s0 := State([], None, None, map[], map[], None, 0, 0);
    var s4 := State([Written(a, md5(a)), Written(b, md5(b))], Some(1), Some(Info(Some(md5(a)), None)), map[], map[], None, 4, 0);
    var puts, early := RacingWrites(md5, a, b, s0, s4);
    var s5 := s4.(readers := map[0 := Reader(1, 4, true, Statted)]);
    var s6 := s4.(readers := map[0 := Reader(1, 4, true, Loaded(s4.sidecar))]);
    var s7 := s4.(readers := map[0 := Reader(1, 4, true, Done(md5(a), true))]);
    var gets := [Stat(0), Load(0), Resolve(0)];
    assert Apply(md5, s4, Stat(0)) == s5 && Apply(md5, s5, Load(0)) == s6 && Apply(md5, s6, Resolve(0)) == s7;
    assert IsRun(md5, [s4, s5, s6, s7], gets);
    RunsJoin(md5, early, puts, [s4, s5, s6, s7], gets);
    var states, events := early + [s5, s6, s7], puts + gets;
    assert states == early + [s4, s5, s6, s7][1..];
    assert states[|events|] == s7;
  }

  lemma RacingWrites(md5: Md5, a: Text, b: Text, s0: State, s4: State) returns (events: seq<Event>, states: seq<State>)
    requires s0 == State([], None, None, map[], map[], None, 0, 0)
    requires s4 == State([Written(a, md5(a)), Written(b, md5(b))], Some(1), Some(Info(Some(md5(a)), None)), map[], map[], None, 4, 0)
    ensures |events| == 4 && IsRun(md5, states, events) && states[0] == s0 && states[4] == s4
  {
    var first, second := Written(a, md5(a)), Written(b, md5(b));
    events := [Land(1, first), Land(2, second), SaveSidecar(2), SaveSidecar(1)];
    var s1 := State([first], Some(0), None, map[1 := Landed(0)], map[], None, 1, 0);
    var s2 := State([first, second], Some(1), None, map[1 := Landed(0), 2 := Landed(1)], map[], None, 2, 0);
    var s3 := State([first, second], Some(1), Some(Info(Some(md5(b)), None)), map[1 := Landed(0)], map[], None, 3, 0);
    assert Apply(md5, s0, events[0]) == s1;
    assert Apply(md5, s1, events[1]) == s2;
    assert Apply(md5, s2, events[2]) == s3;
    assert Apply(md5, s3, events[3]) == s4;
    states := [s0, s1, s2, s3, s4];
  }

  /** One run after another, the second starting where the first ends. */
  lemma RunsJoin(md5: Md5, a: seq<State>, x: seq<Event>, b: seq<State>, y: seq<Event>)
    requires IsRun(md5, a, x) && IsRun(md5, b, y) && a[|x|] == b[0]
    ensures IsRun(md5, a + b[1..], x + y)
  {
    var states, events := a + b[1..], x + y;
    forall i | 0 <= i < |events| ensures Enabled(states[i], events[i]) && states[i + 1] == Apply(md5, states[i], events[i]) {
      if i >= |x| {
        var j := i - |x|;
        assert states[i] == b[j] && states[i + 1] == b[j + 1] && events[i] == y[j];
      } else {
        assert states[i] == a[i] && states[i + 1] == a[i + 1] && events[i] == x[i];
      }
    }
  }

  // ---- The lock ----

  /** The lock is held by the reader that is between its grant and its finish, if there is one. */
  ghost predicate LockMatches(s: State) {
    forall r: nat :: s.lock == Some(r) <==> r in s.readers && s.readers[r].HoldsLock()
  }

  lemma LockStep(md5: Md5, s: State, e: Event)
    requires LockMatches(s) && Enabled(s, e)
    ensures LockMatches(Apply(md5, s, e))
  {
    var t := Apply(md5, s, e);
    if !e.ByWriter() {
      forall r: nat ensures t.lock == Some(r) <==> r in t.readers && t.readers[r].HoldsLock() {
        assert s.lock == Some(r) <==> r in s.readers && s.readers[r].HoldsLock();
        assert s.lock == Some(e.r) <==> e.r in s.readers && s.readers[e.r].HoldsLock();
      }
    }
  }

  /** In every run, with any number of cancelled requests, the lock is held exactly by the reader that has been granted it and has not finished. */
  lemma {:induction false} LockMatchesAlways(md5: Md5, states: seq<State>, events: seq<Event>, i: nat)
    requires IsRun(md5, states, events) && Init(md5, states[0]) && i < |states|
    ensures LockMatches(states[i])
  {
    if i > 0 {
      LockMatchesAlways(md5, states, events, i - 1);
      LockStep(md5, states[i - 1], events[i - 1]);
    }
  }

  /** Whether some reader under way can do its next step. */
  ghost predicate SomeReaderMoves(s: State) {
    exists e: Event :: e.ByReader() && Enabled(s, e)
  }

  lemma HolderMoves(md5: Md5, s: State, r: nat)
    requires Truthful(md5, s) && r in s.readers && !s.readers[r].step.Waiting? && !s.readers[r].step.Done?
    ensures SomeReaderMoves(s)
  {
    var e := match s.readers[r].step
      case Statted => Load(r)
      case Loaded(_) => Resolve(r)
      case Locked(_) => Recheck(r)
      case Rechecked(_) => if s.file.Some? then Hash(r) else HashFails(r)
      case Hashed(_, _, _) => Restat(r)
      case Verified(_, _) => Save(r, true)
      case _ => Finish(r);
    assert e.ByReader() && Enabled(s, e);
  }

  /** No read is ever stuck: while one is unfinished, it or the reader it waits for can go on. At rest, the lock is free. */
  lemma UnfinishedReadsGoOn(md5: Md5, states: seq<State>, events: seq<Event>, i: nat)
    requires IsRun(md5, states, events) && Init(md5, states[0]) && i < |states|
    ensures (exists r :: r in states[i].readers && !states[i].readers[r].step.Done?) ==> SomeReaderMoves(states[i])
    ensures (forall r | r in states[i].readers :: states[i].readers[r].step.Done?) ==> states[i].lock.None?
  {
    var s := states[i];
    TruthfulAlways(md5, states, events, i);
    LockMatchesAlways(md5, states, events, i);
    if r :| r in s.readers && !s.readers[r].step.Done? {
      if !s.readers[r].step.Waiting? {
        HolderMoves(md5, s, r);
      } else if s.lock.Some? {
        HolderMoves(md5, s, s.lock.value);
      } else {
        assert Acquire(r).ByReader() && Enabled(s, Acquire(r));
      }
    }
  }

  function Rank(step: ReaderStep): nat {
    match step
    case Statted => 0
    case Loaded(_) => 1
    case Waiting(_) => 2
    case Locked(_) => 3
    case Rechecked(_) => 4
    case Hashed(_, _, _) => 5
    case Verified(_, _) => 6
    case Resolved(_) => 7
    case Done(_, _) => 8
  }

  /** And each of its steps brings a read nearer to its end, so that a holder passes the lock on. */
  lemma ReadsComeToAnEnd(md5: Md5, s: State, e: Event)
    requires Enabled(s, e) && e.ByReader()
    ensures var t := Apply(md5, s, e);
      && (e.r in t.readers ==> Rank(s.readers[e.r].step) < Rank(t.readers[e.r].step) <= 8)
      && (forall r | r != e.r :: (r in t.readers <==> r in s.readers) && (r in t.readers ==> t.readers[r] == s.readers[r]))
  {
  }

  /** A delete can begin under any reader, and with both steps done neither the file nor a sidecar is there to read. */
  lemma DeleteLeavesNothing(md5: Md5, s: State, w: nat, r: nat)
    requires s.file.Some? && w !in s.writers
    ensures Enabled(s, RemoveFile(w))
    ensures var removed := Apply(md5, s, RemoveFile(w));
      && Enabled(removed, RemoveSidecar(w))
      && var gone := Apply(md5, removed, RemoveSidecar(w));
        && gone.file.None? && gone.sidecar.None? && gone.writers == s.writers && gone.readers == s.readers
        && !Enabled(gone, Stat(r))
  {
    assert s.writers[w := Removed] - {w} == s.writers;
  }

  /** A reader can be dropped at any step short of its answer: it takes itself and its guard away, and nothing else. */
  lemma CancelLeavesNoTrace(md5: Md5, s: State, r: nat)
    requires LockMatches(s) && r in s.readers && !s.readers[r].step.Done?
    ensures Enabled(s, Cancel(r))
    ensures var t := Apply(md5, s, Cancel(r));
      && t == s.(readers := s.readers - {r}, lock := t.lock)
      && (t.lock.None? <==> forall q | q in t.readers :: !t.readers[q].HoldsLock())
  {
    LockStep(md5, s, Cancel(r));
    var t := Apply(md5, s, Cancel(r));
    assert forall q | q in t.readers && t.readers[q].HoldsLock() :: t.lock == Some(q);
    assert t.lock.Some? ==> t.lock.value in t.readers && t.readers[t.lock.value].HoldsLock();
  }

  // ---- One hash per herd ----

  predicate NoneOr(etag: Option<ETag>, h: ETag) {
    etag.Some? ==> etag.value == h
  }

  /** A reader has hashed the file and not yet tried to save the result. */
  predicate HashInHand(s: State) {
    s.lock.Some? && s.lock.value in s.readers && (s.readers[s.lock.value].step.Hashed? || s.readers[s.lock.value].step.Verified?)
  }

  /** This step loses a hash: its reader is cancelled with the result in hand, or fails to save it. */
  predicate LosesHash(s: State, e: Event) {
    || (e.Cancel? && e.r in s.readers && (s.readers[e.r].step.Hashed? || s.readers[e.r].step.Verified?))
    || (e.Save? && !e.ok)
  }

  ghost function LostHashes(states: seq<State>, events: seq<Event>, i: nat): nat
    requires i <= |events| && |states| == |events| + 1
  {
    if i == 0 then 0 else LostHashes(states, events, i - 1) + if LosesHash(states[i - 1], events[i - 1]) then 1 else 0
  }

  /** How one reader of the herd stands, when the herd has hashed the file `hashes` times. */
  ghost predicate InHerd(reader: Reader, v: Version, h: ETag, hashes: nat) {
    && reader.meta == v
    && (reader.step.Loaded? ==>
      && NoneOr(UsableEtag(reader.step.info, v), h)
      && (hashes == 0 ==> UsableEtag(reader.step.info, v).None?))
    && (reader.step.Hashed? || reader.step.Verified? || reader.step.Resolved? || reader.step.Done? ==>
      hashes > 0 && reader.step.etag == h)
  }

  /** A hash is lost, in hand, or saved; and while none is saved nobody who has the lock has found one. */
  ghost predicate Accounted(md5: Md5, s: State, v: Version, lost: nat) {
    && s.writers == map[] && s.file == Some(v) && v < |s.versions|
    && NoneOr(UsableEtag(s.sidecar, v), md5(s.versions[v].body))
    && s.hashes == lost + (if HashInHand(s) then 1 else 0) + (if UsableEtag(s.sidecar, v).Some? then 1 else 0)
    && (UsableEtag(s.sidecar, v).Some? ==> !HashInHand(s) && (s.lock.Some? ==> s.lock.value in s.readers && !s.readers[s.lock.value].step.Rechecked?))
  }

  ghost predicate Herd(md5: Md5, s: State, v: Version, lost: nat) {
    && Accounted(md5, s, v, lost) && LockMatches(s)
    && forall r | r in s.readers :: InHerd(s.readers[r], v, md5(s.versions[v].body), s.hashes)
  }

  lemma HerdAccounted(md5: Md5, s: State, e: Event, v: Version, lost: nat)
    requires Herd(md5, s, v, lost) && Enabled(s, e) && !e.ByWriter()
    ensures Accounted(md5, Apply(md5, s, e), v, if LosesHash(s, e) then lost + 1 else lost)
    ensures s.hashes <= Apply(md5, s, e).hashes
  {
    if !e.Stat? {
      assert InHerd(s.readers[e.r], v, md5(s.versions[v].body), s.hashes);
      assert s.lock == Some(e.r) <==> s.readers[e.r].HoldsLock();
    }
  }

  lemma HerdReader(md5: Md5, s: State, e: Event, v: Version, lost: nat)
    requires Herd(md5, s, v, lost) && Enabled(s, e) && !e.ByWriter() && !e.EndsEarly()
    ensures InHerd(Apply(md5, s, e).readers[e.r], v, md5(s.versions[v].body), Apply(md5, s, e).hashes)
  {
    if !e.Stat? {
      assert InHerd(s.readers[e.r], v, md5(s.versions[v].body), s.hashes);
    }
  }

  lemma HerdStep(md5: Md5, s: State, e: Event, v: Version, lost: nat)
    requires Herd(md5, s, v, lost) && Enabled(s, e) && !e.ByWriter()
    ensures Herd(md5, Apply(md5, s, e), v, if LosesHash(s, e) then lost + 1 else lost)
    ensures Apply(md5, s, e).versions == s.versions
  {
    var t, h := Apply(md5, s, e), md5(s.versions[v].body);
    HerdAccounted(md5, s, e, v, lost);
    LockStep(md5, s, e);
    forall r | r in t.readers ensures InHerd(t.readers[r], v, h, t.hashes) {
      if r == e.r {
        HerdReader(md5, s, e, v, lost);
      } else {
        assert t.readers[r] == s.readers[r] && InHerd(s.readers[r], v, h, s.hashes);
      }
    }
  }

  lemma {:induction false} HerdAlways(md5: Md5, states: seq<State>, events: seq<Event>, v: Version, i: nat)
    requires IsRun(md5, states, events) && Herd(md5, states[0], v, 0) && i < |states|
    requires forall k | 0 <= k < |events| :: !events[k].ByWriter()
    ensures Herd(md5, states[i], v, LostHashes(states, events, i)) && states[i].versions == states[0].versions
  {
    if i > 0 {
      HerdAlways(md5, states, events, v, i - 1);
      HerdStep(md5, states[i - 1], events[i - 1], v, LostHashes(states, events, i - 1));
    }
  }

  /**
   * Any number of readers of an object without a usable stored ETag, cancelled or not, in any interleaving, hash it at
   * most once between them and once more for each hash that is lost, and all answer with the MD5 of its bytes.
   */
  lemma OneHashPerHerd(md5: Md5, states: seq<State>, events: seq<Event>, v: Version, i: nat)
    requires IsRun(md5, states, events) && Init(md5, states[0]) && i < |states|
    requires states[0].file == Some(v) && UsableEtag(states[0].sidecar, v).None?
    requires forall k | 0 <= k < |events| :: !events[k].ByWriter()
    ensures states[i].hashes <= 1 + LostHashes(states, events, i) && v < |states[0].versions|
    ensures forall r | r in states[i].readers && states[i].readers[r].step.Done? ::
      states[i].hashes >= 1 && states[i].readers[r].step.etag == md5(states[0].versions[v].body)
  {
    HerdAlways(md5, states, events, v, i);
  }
}
