/**
 * Files written through a temporary file and a rename: any number of writers at once, some of which are dropped, and a
 * server that may stop at any moment.
 */
module FileWriters {
  import opened Bytes
  import opened SessionNames

  /**
   * Temporary files and sidecars lie in the data root, objects in bucket directories. Files of the data root are told
   * apart by what they are, as their names tell them apart.
   */
  datatype Location = InRoot(id: FileId) | InBucket(bucket: Text, path: seq<Text>) {
    predicate IsTmp() {
      InRoot? && id.TmpFile?
    }

    /** Whatever is written through a temporary file goes to a bucket, or is a file of the data root that is not temporary. */
    predicate IsTarget() {
      InRoot? ==> id.Valid() && !id.TmpFile?
    }
  }

  /** What a restart takes for a leftover, by its name. */
  predicate IsTmpName(name: Text) {
    Ascii(".tmp.") <= name && EndsWith(name, Ascii(".internal.part"))
  }

  predicate IsLeftover(at: Location) {
    at.InRoot? && IsTmpName(NameOf(at.id))
  }

  /** `fed` bytes of the body have come in; the last `buffered` of them are not in the file yet. */
  datatype Writer = Writer(number: nat, dest: Location, body: Text, fed: nat, buffered: nat) {
    function Tmp(): Location {
      InRoot(TmpFile(number))
    }

    predicate Valid() {
      buffered <= fed <= |body|
    }

    function InFile(): Text
      requires Valid()
    {
      body[..fed - buffered]
    }
  }

  /** `landed` is kept for the record: the body of the latest finished writer of each location. */
  datatype State = State(files: map<Location, Text>, counter: nat, writers: map<nat, Writer>, landed: map<Location, Text>)

  datatype Event =
    | Open(w: nat, dest: Location, body: Text)
    | Feed(w: nat, n: nat)
    | Spill(w: nat, n: nat)
    | Finish(w: nat)
    | Drop(w: nat)
    | Remove(at: Location)
    | Restart

  predicate Enabled(s: State, e: Event) {
    match e
    case Open(w, dest, _) => w !in s.writers && dest.IsTarget()
    case Feed(w, n) => w in s.writers && s.writers[w].fed + n <= |s.writers[w].body|
    case Spill(w, n) => w in s.writers && n <= s.writers[w].buffered && s.writers[w].Valid() && s.writers[w].Tmp() in s.files
    case Finish(w) => w in s.writers && s.writers[w].fed == |s.writers[w].body| && s.writers[w].buffered == 0 && s.writers[w].Tmp() in s.files
    case Drop(w) => w in s.writers
    case Remove(at) => at.IsTarget()
    case Restart => true
  }

  function Apply(s: State, e: Event): State
    requires Enabled(s, e)
  {
    match e
    case Open(w, dest, body) =>
      var writer := Writer(s.counter, dest, body, 0, 0);
      s.(files := s.files[writer.Tmp() := []], counter := s.counter + 1, writers := s.writers[w := writer])
    case Feed(w, n) =>
      var writer := s.writers[w];
      s.(writers := s.writers[w := writer.(fed := writer.fed + n, buffered := writer.buffered + n)])
    case Spill(w, n) =>
      var writer := s.writers[w];
      var from := writer.fed - writer.buffered;
      s.(files := s.files[writer.Tmp() := s.files[writer.Tmp()] + writer.body[from..from + n]], writers := s.writers[w := writer.(buffered := writer.buffered - n)])
    case Finish(w) =>
      var writer := s.writers[w];
      s.(files := (s.files - {writer.Tmp()})[writer.dest := s.files[writer.Tmp()]], writers := s.writers - {w}, landed := s.landed[writer.dest := writer.body])
    case Drop(w) => s.(files := s.files - {s.writers[w].Tmp()}, writers := s.writers - {w})
    case Remove(at) => s.(files := s.files - {at}, landed := s.landed - {at})
    case Restart => State(map at | at in s.files && !IsLeftover(at) :: s.files[at], 0, map[], s.landed)
  }

  // ---- Names ----

  /** The temporary name of a writer is one a restart finds; no destination is. */
  lemma TmpNamesAreTmp(n: nat)
    ensures IsTmpName(NameOf(TmpFile(n)))
  {
    var rest := [Decimal(n), Ascii("internal"), Ascii("part")];
    var pieces := [Ascii("tmp")] + rest;
    assert pieces == [Ascii("tmp"), Decimal(n), Ascii("internal"), Ascii("part")];
    TmpStart(n);
    DottedEndsWith([Ascii("tmp"), Decimal(n)], Ascii("internal"), Ascii("part"));
    assert [Ascii("tmp"), Decimal(n)] + [Ascii("internal"), Ascii("part")] == pieces;
    InternalPart();
  }

  lemma InternalPart()
    ensures Ascii(".internal.part") == [DOT] + Ascii("internal") + [DOT] + Ascii("part")
  {
  }

  lemma TmpStart(n: nat)
    ensures Ascii(".tmp.") <= TmpName(n)
  {
    var rest := [Decimal(n), Ascii("internal"), Ascii("part")];
    DottedFirst(Ascii("tmp"), rest);
    assert [Ascii("tmp")] + rest == [Ascii("tmp"), Decimal(n), Ascii("internal"), Ascii("part")];
  }

  /** A restart finds exactly the temporary files. */
  lemma LeftoversAreTmp(at: Location)
    ensures IsLeftover(at) <==> at.IsTmp()
  {
    if at.InRoot? {
      NameTellsKind(at.id);
      TmpPrefixKind(NameOf(at.id));
      if at.id.TmpFile? {
        TmpNamesAreTmp(at.id.counter);
      }
    }
  }

  lemma TmpPrefixKind(name: Text)
    ensures Ascii(".tmp.") <= name ==> KindOf(name) == Some(TmpKind)
  {
    if Ascii(".tmp.") <= name {
      assert name[1] == Ascii(".tmp.")[1];
      assert Ascii(".tmp.")[..4] == Ascii(".tmp");
      assert Ascii(".upload-")[1] as int == 'u' as int && Ascii(".upload_id-")[1] as int == 'u' as int;
      assert Ascii(".bucket-")[1] as int == 'b' as int && Ascii(".tmp.")[1] as int == 't' as int;
      assert name[..4] == Ascii(".tmp.")[..4];
    }
  }

  // ---- Invariants ----

  /** A live writer's temporary file holds what it has written so far. */
  ghost predicate WriterOk(s: State, w: nat)
    requires w in s.writers
  {
    var writer := s.writers[w];
    writer.Valid() && writer.number < s.counter && writer.dest.IsTarget() && writer.Tmp() in s.files && s.files[writer.Tmp()] == writer.InFile()
  }

  ghost predicate AllOk(s: State) {
    forall w | w in s.writers :: WriterOk(s, w)
  }

  /** No two live writers have the same number. */
  ghost predicate Apart(s: State) {
    forall v, w | v in s.writers && w in s.writers && s.writers[v].number == s.writers[w].number :: v == w
  }

  /** What is not temporary is what finished writers have put there. */
  ghost predicate OnlyLanded(s: State) {
    forall at: Location | !at.IsTmp() :: (at in s.files <==> at in s.landed) && (at in s.files ==> s.files[at] == s.landed[at])
  }

  /** Every temporary file is a live writer's. */
  ghost predicate NoLitter(s: State) {
    forall at | at in s.files && at.IsTmp() :: exists w | w in s.writers :: s.writers[w].Tmp() == at
  }

  ghost predicate Invariant(s: State) {
    AllOk(s) && Apart(s) && OnlyLanded(s) && NoLitter(s)
  }

  lemma OpenKeeps(s: State, w: nat, dest: Location, body: Text)
    requires Invariant(s) && Enabled(s, Open(w, dest, body))
    ensures Invariant(Apply(s, Open(w, dest, body)))
  {
    var t := Apply(s, Open(w, dest, body));
    var writer := t.writers[w];
    assert t.writers == s.writers[w := writer];
    forall v | v in t.writers ensures WriterOk(t, v) {
      assert v != w ==> WriterOk(s, v);
    }
    LitterStaysOwned(s, t, w, writer);
  }

  /** Temporary files other than a given writer's keep their writers. */
  lemma LitterStaysOwned(s: State, t: State, w: nat, writer: Writer)
    requires NoLitter(s) && t.writers == s.writers[w := writer]
    requires w in s.writers ==> writer.number == s.writers[w].number
    requires forall at | at in t.files && at.IsTmp() :: at in s.files || at == writer.Tmp()
    ensures NoLitter(t)
  {
    forall at | at in t.files && at.IsTmp() ensures exists v | v in t.writers :: t.writers[v].Tmp() == at {
      if at == writer.Tmp() {
        assert t.writers[w].Tmp() == at;
      } else {
        var v :| v in s.writers && s.writers[v].Tmp() == at;
        assert t.writers[v].Tmp() == at;
      }
    }
  }

  /** Writers other than the one at work are as they were. */
  lemma OthersStayOk(s: State, t: State, w: nat, writer: Writer)
    requires AllOk(s) && Apart(s) && w in s.writers && writer.number == s.writers[w].number
    requires t.writers == s.writers[w := writer] && t.counter == s.counter && t.files.Keys == s.files.Keys
    requires forall at | at in s.files && at != writer.Tmp() :: t.files[at] == s.files[at]
    requires WriterOk(t, w)
    ensures AllOk(t)
  {
  }

  /** One writer goes on, under its number and with its own file. */
  lemma GoingOnKeeps(s: State, t: State, w: nat, writer: Writer)
    requires Invariant(s) && w in s.writers && writer.number == s.writers[w].number
    requires t.writers == s.writers[w := writer] && t.counter == s.counter && t.landed == s.landed && t.files.Keys == s.files.Keys
    requires forall at | at in s.files && at != writer.Tmp() :: t.files[at] == s.files[at]
    requires WriterOk(t, w)
    ensures Invariant(t)
  {
    OthersStayOk(s, t, w, writer);
    LitterStaysOwned(s, t, w, writer);
    assert OnlyLanded(t) by {
      assert forall at: Location | !at.IsTmp() :: at in s.files <==> at in t.files;
    }
  }

  lemma FeedKeeps(s: State, w: nat, n: nat)
    requires Invariant(s) && Enabled(s, Feed(w, n))
    ensures Invariant(Apply(s, Feed(w, n)))
  {
    var t := Apply(s, Feed(w, n));
    assert WriterOk(s, w);
    GoingOnKeeps(s, t, w, t.writers[w]);
  }

  lemma SpillKeeps(s: State, w: nat, n: nat)
    requires Invariant(s) && Enabled(s, Spill(w, n))
    ensures Invariant(Apply(s, Spill(w, n)))
  {
    var t := Apply(s, Spill(w, n));
    GoingOnKeeps(s, t, w, t.writers[w]);
  }

  lemma RestStaysOk(s: State, t: State, w: nat)
    requires AllOk(s) && Apart(s) && w in s.writers
    requires t.writers == s.writers - {w} && t.counter == s.counter
    requires forall at: Location | at.IsTmp() && at in s.files && at != s.writers[w].Tmp() :: at in t.files && t.files[at] == s.files[at]
    ensures AllOk(t)
  {
  }

  /** One writer less: the others and their files are as they were. */
  lemma LeavingKeeps(s: State, t: State, w: nat)
    requires Invariant(s) && w in s.writers
    requires t.writers == s.writers - {w} && t.counter == s.counter
    requires forall at: Location | at.IsTmp() :: (at in t.files <==> at in s.files && at != s.writers[w].Tmp()) && (at in t.files ==> t.files[at] == s.files[at])
    requires OnlyLanded(t)
    ensures Invariant(t)
  {
    RestStaysOk(s, t, w);
    forall at | at in t.files && at.IsTmp() ensures exists v | v in t.writers :: t.writers[v].Tmp() == at {
      var v :| v in s.writers && s.writers[v].Tmp() == at;
      assert v in t.writers;
    }
  }

  lemma FinishKeeps(s: State, w: nat)
    requires Invariant(s) && Enabled(s, Finish(w))
    ensures Invariant(Apply(s, Finish(w)))
  {
    var t, writer := Apply(s, Finish(w)), s.writers[w];
    assert WriterOk(s, w);
    assert writer.body[..|writer.body|] == writer.body;
    LeavingKeeps(s, t, w);
  }

  lemma DropKeeps(s: State, w: nat)
    requires Invariant(s) && Enabled(s, Drop(w))
    ensures Invariant(Apply(s, Drop(w)))
  {
    LeavingKeeps(s, Apply(s, Drop(w)), w);
  }

  lemma RestartKeeps(s: State)
    requires Invariant(s)
    ensures Invariant(Apply(s, Restart))
  {
    forall at: Location ensures IsLeftover(at) <==> at.IsTmp() {
      LeftoversAreTmp(at);
    }
  }

  lemma StepKeeps(s: State, e: Event)
    requires Invariant(s) && Enabled(s, e)
    ensures Invariant(Apply(s, e))
  {
    match e
    case Open(w, dest, body) => OpenKeeps(s, w, dest, body);
    case Feed(w, n) => FeedKeeps(s, w, n);
    case Spill(w, n) => SpillKeeps(s, w, n);
    case Finish(w) => FinishKeeps(s, w);
    case Drop(w) => DropKeeps(s, w);
    case Remove(at) =>
    case Restart => RestartKeeps(s);
  }

  ghost predicate IsRun(states: seq<State>, events: seq<Event>) {
    && |states| == |events| + 1
    && states[0] == State(map[], 0, map[], map[])
    && forall i | 0 <= i < |events| :: Enabled(states[i], events[i]) && states[i + 1] == Apply(states[i], events[i])
  }

  lemma {:induction false} InvariantAlways(states: seq<State>, events: seq<Event>, i: nat)
    requires IsRun(states, events) && i < |states|
    ensures Invariant(states[i])
  {
    if i > 0 {
      InvariantAlways(states, events, i - 1);
      StepKeeps(states[i - 1], events[i - 1]);
    }
  }

  // ---- Whole files only ----

  /** The latest writer to finish at `at` among the first `i` events, unless it was removed since. */
  ghost function LatestBody(states: seq<State>, events: seq<Event>, at: Location, i: nat): Option<Text>
    requires IsRun(states, events) && i <= |events|
  {
    if i == 0 then None
    else
      var s, e := states[i - 1], events[i - 1];
      if e.Finish? && s.writers[e.w].dest == at then Some(s.writers[e.w].body)
      else if e.Remove? && e.at == at then None
      else LatestBody(states, events, at, i - 1)
  }

  lemma {:induction false} LandedIsLatest(states: seq<State>, events: seq<Event>, at: Location, i: nat)
    requires IsRun(states, events) && i <= |events|
    ensures LatestBody(states, events, at, i) == if at in states[i].landed then Some(states[i].landed[at]) else None
  {
    if i > 0 {
      LandedIsLatest(states, events, at, i - 1);
    }
  }

  /** However writers interleave, are dropped, or the server restarts: a destination is absent or holds one whole body, the latest. */
  lemma WholeFilesOnly(states: seq<State>, events: seq<Event>, at: Location, i: nat)
    requires IsRun(states, events) && i <= |events| && at.IsTarget()
    ensures (if at in states[i].files then Some(states[i].files[at]) else None) == LatestBody(states, events, at, i)
  {
    InvariantAlways(states, events, i);
    LandedIsLatest(states, events, at, i);
  }

  /** Live writers never share a temporary file, and every temporary file is a live writer's. */
  lemma TmpFilesAreApart(states: seq<State>, events: seq<Event>, i: nat, v: nat, w: nat)
    requires IsRun(states, events) && i < |states| && v in states[i].writers && w in states[i].writers && v != w
    ensures states[i].writers[v].Tmp() != states[i].writers[w].Tmp()
  {
    InvariantAlways(states, events, i);
  }

  /** Dropping a writer removes its own temporary file and touches nothing else. */
  lemma DroppedWriterLeavesNoTrace(states: seq<State>, events: seq<Event>, i: nat, w: nat, at: Location)
    requires IsRun(states, events) && i < |states| && w in states[i].writers
    ensures var s, t := states[i], Apply(states[i], Drop(w));
      && (at in t.files <==> at in s.files && at != s.writers[w].Tmp())
      && (at in t.files ==> t.files[at] == s.files[at])
      && (at.IsTarget() ==> (at in t.files <==> at in s.files))
      && (forall v | v in t.writers :: v in s.writers && t.writers[v] == s.writers[v] && t.writers[v].Tmp() in t.files)
  {
    InvariantAlways(states, events, i);
    var s := states[i];
    DropKeeps(s, w);
    forall v | v in Apply(s, Drop(w)).writers ensures Apply(s, Drop(w)).writers[v].Tmp() in Apply(s, Drop(w)).files {
      assert WriterOk(Apply(s, Drop(w)), v);
    }
  }

  lemma FeedRest(s: State, w: nat)
    requires w in s.writers && WriterOk(s, w)
    ensures var writer := s.writers[w];
      && writer.fed <= |writer.body| && Enabled(s, Feed(w, |writer.body| - writer.fed))
      && var t := Apply(s, Feed(w, |writer.body| - writer.fed));
        && t.files == s.files && t.writers - {w} == s.writers - {w} && w in t.writers && WriterOk(t, w)
        && t.writers[w] == writer.(fed := |writer.body|, buffered := t.writers[w].buffered)
  {
  }

  lemma FlushAll(s: State, w: nat)
    requires w in s.writers && WriterOk(s, w) && s.writers[w].fed == |s.writers[w].body|
    ensures Enabled(s, Spill(w, s.writers[w].buffered))
    ensures var t, writer := Apply(s, Spill(w, s.writers[w].buffered)), s.writers[w];
      && t.files - {writer.Tmp()} == s.files - {writer.Tmp()} && t.writers - {w} == s.writers - {w} && w in t.writers && WriterOk(t, w)
      && t.writers[w] == writer.(buffered := 0)
  {
  }

  lemma FinishWhole(s: State, w: nat)
    requires w in s.writers && WriterOk(s, w) && s.writers[w].fed == |s.writers[w].body| && s.writers[w].buffered == 0
    ensures Enabled(s, Finish(w))
    ensures var t, writer := Apply(s, Finish(w)), s.writers[w];
      t.files == (s.files - {writer.Tmp()})[writer.dest := writer.body] && t.writers == s.writers - {w}
  {
    assert s.writers[w].body[..|s.writers[w].body|] == s.writers[w].body;
  }

  lemma WritersAreOk(states: seq<State>, events: seq<Event>, i: nat, w: nat)
    requires IsRun(states, events) && i < |states| && w in states[i].writers
    ensures WriterOk(states[i], w)
  {
    InvariantAlways(states, events, i);
  }

  /** A writer can come to its end from any state: fed the rest, flushed and renamed it leaves its whole body, and no other file differs. */
  lemma WriterCanFinish(states: seq<State>, events: seq<Event>, i: nat, w: nat)
    requires IsRun(states, events) && i < |states| && w in states[i].writers
    ensures var s, writer := states[i], states[i].writers[w];
      && writer.fed <= |writer.body| && Enabled(s, Feed(w, |writer.body| - writer.fed))
      && var t := Apply(s, Feed(w, |writer.body| - writer.fed));
        && Enabled(t, Spill(w, t.writers[w].buffered))
        && var u := Apply(t, Spill(w, t.writers[w].buffered));
          && Enabled(u, Finish(w))
          && Apply(u, Finish(w)).files == (s.files - {writer.Tmp()})[writer.dest := writer.body]
          && Apply(u, Finish(w)).writers == s.writers - {w}
  {
    var s, writer := states[i], states[i].writers[w];
    WritersAreOk(states, events, i, w);
    FeedRest(s, w);
    var t := Apply(s, Feed(w, |writer.body| - writer.fed));
    FlushAll(t, w);
    FinishWhole(Apply(t, Spill(w, t.writers[w].buffered)), w);
  }

  /** Bytes still in the buffer when a file is renamed are missing from it: all that was fed must be flushed first. */
  lemma RenameIsWholeIffFlushed(s: State, w: nat)
    requires Invariant(s) && w in s.writers && s.writers[w].fed == |s.writers[w].body|
    ensures s.writers[w].Tmp() in s.files
    ensures s.files[s.writers[w].Tmp()] == s.writers[w].body <==> s.writers[w].buffered == 0
  {
  }
}
