/** Whole runs of multipart requests, plain puts and deletes on a data root that starts out empty. */
module SessionRuns {
  import opened Bytes
  import opened Utf8
  import opened Hashing
  import opened SessionNames
  import opened Sessions

  function SessionOf(id: FileId): Option<Text> {
    match id
    case MarkerFile(u) => Some(u)
    case PartFile(u, _) => Some(u)
    case SidecarFile(_, _, u) => u
    case _ => None
  }

  predicate Fits(id: FileId, content: Content) {
    match id
    case MarkerFile(_) => content.Marker?
    case PartFile(_, _) => content.PartBody?
    case SidecarFile(b, k, u) => content.Attributes? && (u.Some? ==> IsUtf8(b) && IsUtf8(k))
    case InfoFile(_, _) => content.Info?
    case TmpFile(_) => false
  }

  /** A file this server writes, for an object or for a session ids before. */
  ghost predicate IsKnown(name: Text, content: Content, ids: set<Text>) {
    exists id: FileId :: id.Valid() && NameOf(id) == name && Fits(id, content) && (SessionOf(id).Some? ==> SessionOf(id).value in ids)
  }

  ghost predicate WellMade(root: map<Text, Content>, ids: set<Text>) {
    && (forall name | name in root :: IsKnown(name, root[name], ids))
    && (forall p: Place, q: Place, u {:trigger NameOf(Sidecar(p, Some(u))), NameOf(Sidecar(q, Some(u)))} |
          IsUuid(u) && NameOf(Sidecar(p, Some(u))) in root && NameOf(Sidecar(q, Some(u))) in root :: p == q)
  }

  lemma KnownFile(root: map<Text, Content>, ids: set<Text>, id: FileId)
    requires WellMade(root, ids) && id.Valid() && NameOf(id) in root
    ensures Fits(id, root[NameOf(id)])
    ensures SessionOf(id).Some? ==> SessionOf(id).value in ids
  {
    var name := NameOf(id);
    assert IsKnown(name, root[name], ids);
    var other: FileId :| other.Valid() && NameOf(other) == name && Fits(other, root[name]) && (SessionOf(other).Some? ==> SessionOf(other).value in ids);
    NameOfIsInjective(id, other);
  }

  // ---- Runs ----

  function OpenedBefore(requests: seq<Request>, i: nat): set<Text>
    requires i <= |requests|
  {
    set r | r in requests[..i] && r.CreateRequest? :: r.id
  }

  ghost predicate Connected(states: seq<State>, requests: seq<Request>, md5: Text -> Text)
    requires |states| == |requests| + 1
  {
    forall o: int {:trigger Opened(o)} | Opened(o) :: forall i | 0 <= i < |requests| :: states[i + 1] == Apply(states[i], md5, requests[i]).0
  }

  lemma RunStep(states: seq<State>, requests: seq<Request>, md5: Text -> Text, i: nat)
    requires IsRun(states, requests, md5) && i < |requests|
    ensures states[i + 1] == Apply(states[i], md5, requests[i]).0 && requests[i].Valid()
  {
    assert Opened(0);
  }

  /** Upload ids are drawn afresh; buckets and keys are strings. */
  ghost predicate IsRun(states: seq<State>, requests: seq<Request>, md5: Text -> Text) {
    && |states| == |requests| + 1
    && states[0].root == map[]
    && (forall i | 0 <= i < |requests| :: requests[i].Valid())
    && Connected(states, requests, md5)
    && (forall i | 0 <= i < |requests| && requests[i].CreateRequest? ::
          requests[i].id !in OpenedBefore(requests, i) && IsUtf8(requests[i].place.bucket) && IsUtf8(requests[i].place.key))
  }

  lemma OpenedGrows(requests: seq<Request>, i: nat)
    requires i < |requests|
    ensures OpenedBefore(requests, i + 1) == OpenedBefore(requests, i) + (if requests[i].CreateRequest? then {requests[i].id} else {})
  {
  }

  /** The new root holds nothing but what the old one held, and files that are known. */
  ghost predicate Grows(before: map<Text, Content>, after: map<Text, Content>, ids: set<Text>) {
    forall name | name in after :: (name in before && before[name] == after[name]) || IsKnown(name, after[name], ids)
  }

  /** Every session sidecar of the new root was in the old one. */
  ghost predicate NoNewSidecars(before: map<Text, Content>, after: map<Text, Content>) {
    forall p: Place, u | IsUuid(u) && NameOf(Sidecar(p, Some(u))) in after :: NameOf(Sidecar(p, Some(u))) in before
  }

  lemma GrowsIsWellMade(before: map<Text, Content>, after: map<Text, Content>, ids: set<Text>, more: set<Text>)
    requires WellMade(before, ids) && ids <= more && Grows(before, after, more) && NoNewSidecars(before, after)
    ensures WellMade(after, more)
  {
  }

  lemma CreateIsWellMade(s: State, place: Place, u: Text, owner: Option<Text>, attributes: Text, ids: set<Text>)
    requires WellMade(s.root, ids) && IsUuid(u) && u !in ids && IsUtf8(place.bucket) && IsUtf8(place.key)
    ensures WellMade(Create(s, place, u, owner, attributes).0.root, ids + {u})
  {
    var marker, sidecar := MarkerFile(u), Sidecar(place, Some(u));
    var after := Create(s, place, u, owner, attributes).0.root;
    forall name | name in after ensures IsKnown(name, after[name], ids + {u}) {
      if name != NameOf(marker) && name != NameOf(sidecar) {
        assert IsKnown(name, s.root[name], ids);
      }
    }
    forall p: Place, q: Place, v | IsUuid(v) && NameOf(Sidecar(p, Some(v))) in after && NameOf(Sidecar(q, Some(v))) in after ensures p == q {
      CreatedSidecar(s, place, u, owner, attributes, ids, p, v);
      CreatedSidecar(s, place, u, owner, attributes, ids, q, v);
    }
  }

  lemma CreatedSidecar(s: State, place: Place, u: Text, owner: Option<Text>, attributes: Text, ids: set<Text>, p: Place, v: Text)
    requires WellMade(s.root, ids) && IsUuid(u) && u !in ids && IsUuid(v)
    requires NameOf(Sidecar(p, Some(v))) in Create(s, place, u, owner, attributes).0.root
    ensures if v == u then p == place else NameOf(Sidecar(p, Some(v))) in s.root
  {
    var id := Sidecar(p, Some(v));
    OtherName(id, MarkerFile(u));
    NameOfIsInjective(id, Sidecar(place, Some(u)));
    if NameOf(id) in s.root {
      KnownFile(s.root, ids, id);
    }
  }

  lemma UploadIsWellMade(s: State, md5: Text -> Text, r: Request, ids: set<Text>)
    requires WellMade(s.root, ids) && r.Valid() && r.UploadRequest?
    ensures WellMade(Apply(s, md5, r).0.root, ids)
  {
    var after := Apply(s, md5, r).0.root;
    if Apply(s, md5, r).1.Done? {
      var id := PartFile(r.upload.value, r.number);
      KnownFile(s.root, ids, MarkerFile(r.upload.value));
      forall p: Place, u | IsUuid(u) && NameOf(Sidecar(p, Some(u))) in after ensures NameOf(Sidecar(p, Some(u))) in s.root {
        OtherName(Sidecar(p, Some(u)), id);
      }
      GrowsIsWellMade(s.root, after, ids, ids);
    }
  }

  lemma AbortIsWellMade(s: State, md5: Text -> Text, r: Request, ids: set<Text>)
    requires WellMade(s.root, ids) && r.Valid() && r.AbortRequest?
    ensures WellMade(Apply(s, md5, r).0.root, ids)
  {
  }

  lemma BegunIsWellMade(root: map<Text, Content>, place: Place, u: Text, ids: set<Text>)
    requires WellMade(root, ids) && IsUuid(u)
    ensures WellMade(Begun(root, place, u), ids)
  {
    var to, after := Sidecar(place, None), Begun(root, place, u);
    if NameOf(to) in after {
      if NameOf(to) in root {
        KnownFile(root, ids, to);
      }
    }
    forall p: Place, v | IsUuid(v) && NameOf(Sidecar(p, Some(v))) in after ensures NameOf(Sidecar(p, Some(v))) in root {
      OtherName(Sidecar(p, Some(v)), to);
    }
    GrowsIsWellMade(root, after, ids, ids);
  }

  /** After a completion each file is one the parts were taken from, or the object's own ETag. */
  lemma CompletionGrows(s: State, md5: Text -> Text, place: Place, u: Text, caller: Option<Text>, parts: seq<Option<PartNumber>>, ids: set<Text>)
    requires IsUuid(u) && Denial(s.root, u, caller).None?
    ensures Grows(Begun(s.root, place, u), Complete(s, md5, place, Some(u), caller, Some(parts)).0.root, ids)
  {
    var outcome := Complete(s, md5, place, Some(u), caller, Some(parts)).1;
    if outcome.Done? {
      Knows(InfoOf(place), Info(outcome.answer), ids);
    }
  }

  lemma Knows(id: FileId, content: Content, ids: set<Text>)
    requires id.Valid() && Fits(id, content) && (SessionOf(id).Some? ==> SessionOf(id).value in ids)
    ensures IsKnown(NameOf(id), content, ids)
  {
  }

  lemma CompleteIsWellMade(s: State, md5: Text -> Text, r: Request, ids: set<Text>)
    requires WellMade(s.root, ids) && r.Valid() && r.CompleteRequest?
    ensures WellMade(Apply(s, md5, r).0.root, ids)
  {
    if r.list.Some? && r.upload.Some? && Denial(s.root, r.upload.value, r.caller).None? {
      var begun, after := Begun(s.root, r.place, r.upload.value), Apply(s, md5, r).0.root;
      BegunIsWellMade(s.root, r.place, r.upload.value, ids);
      CompletionGrows(s, md5, r.place, r.upload.value, r.caller, r.list.value, ids);
      forall p: Place, u | IsUuid(u) && NameOf(Sidecar(p, Some(u))) in after ensures NameOf(Sidecar(p, Some(u))) in begun {
        OtherName(Sidecar(p, Some(u)), InfoOf(r.place));
      }
      GrowsIsWellMade(begun, after, ids, ids);
    }
  }

  lemma PutIsWellMade(s: State, md5: Text -> Text, r: Request, ids: set<Text>)
    requires WellMade(s.root, ids) && r.Valid() && r.PutRequest?
    ensures WellMade(Apply(s, md5, r).0.root, ids)
  {
    var plain, info, after := Sidecar(r.place, None), InfoOf(r.place), Apply(s, md5, r).0.root;
    OtherName(plain, info);
    forall p: Place, u | IsUuid(u) && NameOf(Sidecar(p, Some(u))) in after ensures NameOf(Sidecar(p, Some(u))) in s.root {
      OtherName(Sidecar(p, Some(u)), plain);
      OtherName(Sidecar(p, Some(u)), info);
    }
    GrowsIsWellMade(s.root, after, ids, ids);
  }

  lemma DeleteIsWellMade(s: State, md5: Text -> Text, r: Request, ids: set<Text>)
    requires WellMade(s.root, ids) && r.Valid() && r.DeleteRequest?
    ensures WellMade(Apply(s, md5, r).0.root, ids)
  {
    GrowsIsWellMade(s.root, Apply(s, md5, r).0.root, ids, ids);
  }

  lemma RequestIsWellMade(s: State, md5: Text -> Text, r: Request, ids: set<Text>)
    requires WellMade(s.root, ids) && r.Valid()
    requires r.CreateRequest? ==> r.id !in ids && IsUtf8(r.place.bucket) && IsUtf8(r.place.key)
    ensures WellMade(Apply(s, md5, r).0.root, ids + if r.CreateRequest? then {r.id} else {})
  {
    assert ids + {} == ids;
    match r
    case CreateRequest(place, u, owner, attributes) => CreateIsWellMade(s, place, u, owner, attributes, ids);
    case UploadRequest(_, _, _, _) => UploadIsWellMade(s, md5, r, ids);
    case CompleteRequest(_, _, _, _) => CompleteIsWellMade(s, md5, r, ids);
    case AbortRequest(_, _, _) => AbortIsWellMade(s, md5, r, ids);
    case PutRequest(_, _, _) => PutIsWellMade(s, md5, r, ids);
    case DeleteRequest(_) => DeleteIsWellMade(s, md5, r, ids);
  }

  /** Every file the sessions leave behind is one of theirs, and a session has one place. */
  lemma {:induction false} WellMadeAlways(states: seq<State>, requests: seq<Request>, md5: Text -> Text, i: nat)
    requires IsRun(states, requests, md5) && i < |states|
    ensures WellMade(states[i].root, OpenedBefore(requests, i))
  {
    if i > 0 {
      WellMadeAlways(states, requests, md5, i - 1);
      RunStep(states, requests, md5, i - 1);
      OpenedGrows(requests, i - 1);
      RequestIsWellMade(states[i - 1], md5, requests[i - 1], OpenedBefore(requests, i - 1));
    }
  }

  /** A request that ends upload `u`, or would if its caller were the owner. */
  predicate Ends(r: Request, u: Text) {
    (r.CompleteRequest? || r.AbortRequest?) && r.upload == Some(u)
  }

  lemma OpenStaysOpen(s: State, md5: Text -> Text, r: Request, u: Text, owner: Option<Text>)
    requires r.Valid() && IsUuid(u) && NameOf(MarkerFile(u)) in s.root && s.root[NameOf(MarkerFile(u))] == Marker(owner)
    requires r.CreateRequest? ==> r.id != u
    requires Ends(r, u) ==> r.caller != owner
    ensures SameAt(s.root, Apply(s, md5, r).0.root, MarkerFile(u))
  {
    if r.Upload() != Some(u) {
      RequestsKeepToTheirSession(s, md5, r, MarkerFile(u));
    } else if r.UploadRequest? && r.number >= 0 {
      OtherName(MarkerFile(u), PartFile(u, r.number));
    }
  }

  /** From its creation until its owner completes or aborts it, a session is open to its owner, and to nobody else. */
  lemma {:induction false} SessionStaysOpen(states: seq<State>, requests: seq<Request>, md5: Text -> Text, j: nat, i: nat, caller: Option<Text>)
    requires IsRun(states, requests, md5) && j < i <= |requests| && requests[j].CreateRequest?
    requires forall k | j < k < i :: Ends(requests[k], requests[j].id) ==> requests[k].caller != requests[j].owner
    ensures var marker := NameOf(MarkerFile(requests[j].id)); marker in states[i].root && states[i].root[marker] == Marker(requests[j].owner)
    ensures Denial(states[i].root, requests[j].id, caller).None? <==> caller == requests[j].owner
  {
    RunStep(states, requests, md5, i - 1);
    var u := requests[j].id;
    assert requests[j].Valid();
    if i == j + 1 {
      OtherName(MarkerFile(u), Sidecar(requests[j].place, Some(u)));
    } else {
      SessionStaysOpen(states, requests, md5, j, i - 1, caller);
      if requests[i - 1].CreateRequest? {
        assert requests[j] in requests[..i - 1];
      }
      OpenStaysOpen(states[i - 1], md5, requests[i - 1], u, requests[j].owner);
    }
  }

  lemma OpenKeepsSidecar(s: State, md5: Text -> Text, r: Request, u: Text, owner: Option<Text>, place: Place)
    requires r.Valid() && IsUuid(u) && NameOf(MarkerFile(u)) in s.root && s.root[NameOf(MarkerFile(u))] == Marker(owner)
    requires r.CreateRequest? ==> r.id != u
    requires Ends(r, u) ==> r.caller != owner
    ensures SameAt(s.root, Apply(s, md5, r).0.root, Sidecar(place, Some(u)))
  {
    var id := Sidecar(place, Some(u));
    if r.Upload() != Some(u) {
      RequestsKeepToTheirSession(s, md5, r, id);
    } else if r.UploadRequest? && r.number >= 0 {
      OtherName(id, PartFile(u, r.number));
    }
  }

  lemma {:induction false} SessionKeepsAttributes(states: seq<State>, requests: seq<Request>, md5: Text -> Text, j: nat, i: nat)
    requires IsRun(states, requests, md5) && j < i <= |requests| && requests[j].CreateRequest?
    requires forall k | j < k < i :: Ends(requests[k], requests[j].id) ==> requests[k].caller != requests[j].owner
    ensures var name := NameOf(Sidecar(requests[j].place, Some(requests[j].id)));
      name in states[i].root && states[i].root[name] == Attributes(requests[j].attributes)
  {
    RunStep(states, requests, md5, i - 1);
    var u := requests[j].id;
    assert requests[j].Valid();
    if i > j + 1 {
      SessionKeepsAttributes(states, requests, md5, j, i - 1);
      SessionStaysOpen(states, requests, md5, j, i - 1, None);
      if requests[i - 1].CreateRequest? {
        assert requests[j] in requests[..i - 1];
      }
      OpenKeepsSidecar(states[i - 1], md5, requests[i - 1], u, requests[j].owner, requests[j].place);
    }
  }

  /** Whatever comes in between: an object completed by the owner, in the session's place, has the attributes the session was opened with. */
  lemma CompletedObjectHasAttributes(states: seq<State>, requests: seq<Request>, md5: Text -> Text, j: nat, i: nat)
    requires IsRun(states, requests, md5) && j < i < |requests| && requests[j].CreateRequest? && requests[i].CompleteRequest?
    requires forall k | j < k < i :: Ends(requests[k], requests[j].id) ==> requests[k].caller != requests[j].owner
    requires requests[i].upload == Some(requests[j].id) && requests[i].caller == requests[j].owner && requests[i].place == requests[j].place && requests[i].list.Some?
    ensures var name := NameOf(Sidecar(requests[j].place, None));
      name in states[i + 1].root && states[i + 1].root[name] == Attributes(requests[j].attributes)
  {
    RunStep(states, requests, md5, i);
    assert requests[j].Valid();
    SessionKeepsAttributes(states, requests, md5, j, i);
    SessionStaysOpen(states, requests, md5, j, i, requests[i].caller);
    CompletionMovesAttributes(states[i], md5, requests[i].place, requests[j].id, requests[i].caller, requests[i].list.value);
  }

  // ---- What is completed is what was uploaded ----

  /** The body of the latest part `n` of upload `u` that was accepted among the first `i` requests. */
  ghost function LastBody(states: seq<State>, requests: seq<Request>, md5: Text -> Text, u: Text, n: nat, i: nat): Option<Text>
    requires IsRun(states, requests, md5) && i <= |requests|
  {
    if i == 0 then None
    else
      var r := requests[i - 1];
      if r.UploadRequest? && r.upload == Some(u) && r.number == n && Apply(states[i - 1], md5, r).1.Done? then Some(Concat(r.chunks.value))
      else LastBody(states, requests, md5, u, n, i - 1)
  }

  /** The part files of an open session hold the latest bodies; nothing was accepted for a session before it was opened. */
  ghost predicate Tracks(states: seq<State>, requests: seq<Request>, md5: Text -> Text, u: Text, n: nat, i: nat)
    requires IsRun(states, requests, md5) && i <= |requests|
  {
    var root, last := states[i].root, LastBody(states, requests, md5, u, n, i);
    && (NameOf(MarkerFile(u)) in root ==>
          HasPart(root, u, n) == last.Some? && (last.Some? ==> BodyOf(root, u, n) == last.value))
    && (u !in OpenedBefore(requests, i) ==> last.None?)
  }

  lemma TracksForeignRequest(states: seq<State>, requests: seq<Request>, md5: Text -> Text, u: Text, n: nat, i: nat)
    requires IsRun(states, requests, md5) && i < |requests| && IsUuid(u)
    requires requests[i].Upload() != Some(u)
    requires Tracks(states, requests, md5, u, n, i)
    ensures Tracks(states, requests, md5, u, n, i + 1)
  {
    RunStep(states, requests, md5, i);
    OpenedGrows(requests, i);
    RequestsKeepToTheirSession(states[i], md5, requests[i], MarkerFile(u));
    RequestsKeepToTheirSession(states[i], md5, requests[i], PartFile(u, n));
  }

  lemma TracksCreate(states: seq<State>, requests: seq<Request>, md5: Text -> Text, u: Text, n: nat, i: nat)
    requires IsRun(states, requests, md5) && i < |requests| && IsUuid(u)
    requires requests[i].CreateRequest? && requests[i].id == u
    requires Tracks(states, requests, md5, u, n, i)
    ensures Tracks(states, requests, md5, u, n, i + 1)
  {
    RunStep(states, requests, md5, i);
    var r, part := requests[i], PartFile(u, n);
    OpenedGrows(requests, i);
    WellMadeAlways(states, requests, md5, i);
    if NameOf(part) in states[i].root {
      KnownFile(states[i].root, OpenedBefore(requests, i), part);
    }
    OtherName(part, MarkerFile(u));
    OtherName(part, Sidecar(r.place, Some(u)));
  }

  lemma TracksUpload(states: seq<State>, requests: seq<Request>, md5: Text -> Text, u: Text, n: nat, i: nat)
    requires IsRun(states, requests, md5) && i < |requests| && IsUuid(u)
    requires requests[i].UploadRequest? && requests[i].upload == Some(u)
    requires Tracks(states, requests, md5, u, n, i)
    ensures Tracks(states, requests, md5, u, n, i + 1)
  {
    RunStep(states, requests, md5, i);
    var r := requests[i];
    OpenedGrows(requests, i);
    WellMadeAlways(states, requests, md5, i);
    if Apply(states[i], md5, r).1.Done? {
      KnownFile(states[i].root, OpenedBefore(requests, i), MarkerFile(u));
      OtherName(MarkerFile(u), PartFile(u, r.number));
      if r.number != n {
        OtherName(PartFile(u, n), PartFile(u, r.number));
      }
    }
  }

  lemma TracksEnd(states: seq<State>, requests: seq<Request>, md5: Text -> Text, u: Text, n: nat, i: nat)
    requires IsRun(states, requests, md5) && i < |requests| && IsUuid(u)
    requires requests[i].CompleteRequest? || requests[i].AbortRequest?
    requires requests[i].upload == Some(u)
    requires Tracks(states, requests, md5, u, n, i)
    ensures Tracks(states, requests, md5, u, n, i + 1)
  {
    RunStep(states, requests, md5, i);
    var r := requests[i];
    OpenedGrows(requests, i);
    if Denial(states[i].root, u, r.caller).None? && r.CompleteRequest? && r.list.Some? {
      AdmittedCompletionEndsSession(states[i], md5, r.place, u, r.caller, r.list.value, None);
      AdmittedIsGone(states[i], md5, r.place, u, r.caller, r.list.value);
    }
  }

  lemma AdmittedIsGone(s: State, md5: Text -> Text, place: Place, u: Text, caller: Option<Text>, parts: seq<Option<PartNumber>>)
    requires IsUuid(u) && Denial(s.root, u, caller).None?
    ensures NameOf(MarkerFile(u)) !in Complete(s, md5, place, Some(u), caller, Some(parts)).0.root
  {
    OtherName(MarkerFile(u), Sidecar(place, None));
    OtherName(MarkerFile(u), InfoOf(place));
  }

  lemma {:induction false} TracksAlways(states: seq<State>, requests: seq<Request>, md5: Text -> Text, u: Text, n: nat, i: nat)
    requires IsRun(states, requests, md5) && i <= |requests| && IsUuid(u)
    ensures Tracks(states, requests, md5, u, n, i)
  {
    if i > 0 {
      TracksAlways(states, requests, md5, u, n, i - 1);
      var r := requests[i - 1];
      if r.Upload() != Some(u) {
        TracksForeignRequest(states, requests, md5, u, n, i - 1);
      } else if r.CreateRequest? {
        TracksCreate(states, requests, md5, u, n, i - 1);
      } else if r.UploadRequest? {
        TracksUpload(states, requests, md5, u, n, i - 1);
      } else {
        TracksEnd(states, requests, md5, u, n, i - 1);
      }
    }
  }

  /** The latest accepted bodies of a list of parts. */
  ghost function LastBodies(states: seq<State>, requests: seq<Request>, md5: Text -> Text, u: Text, parts: seq<Option<PartNumber>>, i: nat): (bodies: seq<Text>)
    requires IsRun(states, requests, md5) && i <= |requests|
  {
    seq(|parts|, k requires 0 <= k < |parts| =>
      var last := LastBody(states, requests, md5, u, Number(parts[k]), i);
      if last.Some? then last.value else [])
  }

  /**
   * Whatever else happens in between: a completed object is the latest accepted body of each listed part, in the
   * order of the part numbers, and its ETag is the one those bodies make.
   */
  lemma CompletedObjectIsWhatWasUploaded(states: seq<State>, requests: seq<Request>, md5: Text -> Text, i: nat, u: Text, parts: seq<Option<PartNumber>>)
    requires IsRun(states, requests, md5) && i < |requests|
    requires requests[i].CompleteRequest? && requests[i].upload == Some(u) && requests[i].list == Some(parts)
    requires Apply(states[i], md5, requests[i]).1.Done?
    ensures forall k | 0 <= k < |parts| :: parts[k].Some? && parts[k].value >= 1 && LastBody(states, requests, md5, u, parts[k].value, i).Some?
    ensures forall j, k | 0 <= j < k < |parts| :: parts[j].value < parts[k].value
    ensures var bodies := LastBodies(states, requests, md5, u, parts, i);
      && (forall k | 0 <= k < |parts| - 1 :: |bodies[k]| >= MIN_PART_SIZE)
      && states[i + 1].objects == states[i].objects[requests[i].place := Concat(bodies)]
      && Apply(states[i], md5, requests[i]).1 == Done(CompositeEtag(md5, bodies))
      && IsCompositeEtag(md5, bodies, CompositeEtag(md5, bodies))
  {
    RunStep(states, requests, md5, i);
    var s, r := states[i], requests[i];
    CompletionSucceedsIffReady(s, md5, r.place, r.upload, r.caller, r.list);
    CompletedObject(s, md5, r.place, u, r.caller, parts);
    var bodies := LastBodies(states, requests, md5, u, parts, i);
    forall k | 0 <= k < |parts|
      ensures LastBody(states, requests, md5, u, parts[k].value, i).Some? && BodyOf(s.root, u, parts[k].value) == bodies[k]
    {
      TracksAlways(states, requests, md5, u, parts[k].value, i);
      assert HasPart(s.root, u, parts[k].value);
    }
    assert Bodies(s.root, u, parts) == bodies;
  }

  // ---- What is stored ----

  /** What was last put, completed or deleted at a place among the first `i` requests. */
  ghost function LatestObject(states: seq<State>, requests: seq<Request>, md5: Text -> Text, place: Place, i: nat): Option<Text>
    requires IsRun(states, requests, md5) && i <= |requests|
  {
    if i == 0 then None
    else
      var r := requests[i - 1];
      if r.PutRequest? && r.place == place then Some(r.body)
      else if r.DeleteRequest? && r.place == place then None
      else if r.CompleteRequest? && r.place == place && Apply(states[i - 1], md5, r).1.Done? then
        Some(Concat(LastBodies(states, requests, md5, r.upload.value, r.list.value, i - 1)))
      else LatestObject(states, requests, md5, place, i - 1)
  }

  /** An object changes by a put, a delete or a completion at its place, and by nothing else. */
  lemma ObjectsChange(s: State, md5: Text -> Text, r: Request, place: Place)
    requires r.Valid()
    ensures var before, after, done := s.objects, Apply(s, md5, r).0.objects, Apply(s, md5, r).1.Done?;
      && (r.PutRequest? && r.place == place ==> place in after && after[place] == r.body)
      && (r.DeleteRequest? && r.place == place ==> place !in after)
      && (r.Target() != Some(place) || (r.CompleteRequest? && !done) ==> (place in after <==> place in before) && (place in after ==> after[place] == before[place]))
  {
    if r.CompleteRequest? && Apply(s, md5, r).1.Failed? {
      FailedCompletionKeepsObjects(s, md5, r, place);
    }
  }

  lemma CompletedIsLatest(states: seq<State>, requests: seq<Request>, md5: Text -> Text, i: nat)
    requires IsRun(states, requests, md5) && i < |requests| && requests[i].CompleteRequest? && Apply(states[i], md5, requests[i]).1.Done?
    ensures var place := requests[i].place;
      place in states[i + 1].objects && LatestObject(states, requests, md5, place, i + 1) == Some(states[i + 1].objects[place])
  {
    CompletedObjectIsWhatWasUploaded(states, requests, md5, i, requests[i].upload.value, requests[i].list.value);
  }

  ghost function ObjectAt(s: State, place: Place): Option<Text> {
    if place in s.objects then Some(s.objects[place]) else None
  }

  lemma OthersStayLatest(states: seq<State>, requests: seq<Request>, md5: Text -> Text, place: Place, i: nat)
    requires IsRun(states, requests, md5) && i < |requests|
    requires !(requests[i].CompleteRequest? && requests[i].place == place && Apply(states[i], md5, requests[i]).1.Done?)
    requires ObjectAt(states[i], place) == LatestObject(states, requests, md5, place, i)
    ensures ObjectAt(states[i + 1], place) == LatestObject(states, requests, md5, place, i + 1)
  {
    RunStep(states, requests, md5, i);
    assert requests[i].Valid();
    ObjectsChange(states[i], md5, requests[i], place);
  }

  lemma LatestStep(states: seq<State>, requests: seq<Request>, md5: Text -> Text, place: Place, i: nat)
    requires IsRun(states, requests, md5) && i < |requests|
    requires ObjectAt(states[i], place) == LatestObject(states, requests, md5, place, i)
    ensures ObjectAt(states[i + 1], place) == LatestObject(states, requests, md5, place, i + 1)
  {
    if requests[i].CompleteRequest? && requests[i].place == place && Apply(states[i], md5, requests[i]).1.Done? {
      CompletedIsLatest(states, requests, md5, i);
    } else {
      OthersStayLatest(states, requests, md5, place, i);
    }
  }

  /** Every place holds what was last put or completed there, and nothing once that is deleted. */
  lemma {:induction false} ObjectsAreTheLatest(states: seq<State>, requests: seq<Request>, md5: Text -> Text, place: Place, i: nat)
    requires IsRun(states, requests, md5) && i <= |requests| && states[0].objects == map[]
    ensures ObjectAt(states[i], place) == LatestObject(states, requests, md5, place, i)
  {
    if i > 0 {
      ObjectsAreTheLatest(states, requests, md5, place, i - 1);
      LatestStep(states, requests, md5, place, i - 1);
    }
  }

  // ---- Stored ETags ----

  /** An ETag these bytes can have: their hash, or the composite one of some parts they are made of. */
  ghost predicate EtagFits(md5: Text -> Text, body: Text, etag: Text) {
    SpellsHex(etag, md5(body)) || exists bodies: seq<Text> :: Concat(bodies) == body && IsCompositeEtag(md5, bodies, etag)
  }

  /** An ETag is stored exactly for what is an object, and fits its bytes. */
  ghost predicate HasFittingEtag(md5: Text -> Text, s: State, place: Place) {
    var name := NameOf(InfoOf(place));
    && (place in s.objects <==> name in s.root)
    && (place in s.objects ==> s.root[name].Info? && EtagFits(md5, s.objects[place], s.root[name].etag))
  }

  lemma OtherPlaceKeepsEtag(s: State, md5: Text -> Text, r: Request, place: Place)
    requires r.Valid() && r.Target() != Some(place) && HasFittingEtag(md5, s, place)
    ensures HasFittingEtag(md5, Apply(s, md5, r).0, place)
  {
    RequestsKeepToTheirSession(s, md5, r, InfoOf(place));
    var t := Apply(s, md5, r).0;
    assert (place in s.objects <==> place in t.objects) && (place in s.objects ==> t.objects[place] == s.objects[place]);
  }

  lemma TargetGetsFittingEtag(s: State, md5: Text -> Text, r: Request)
    requires r.Valid() && r.Target().Some? && HasFittingEtag(md5, s, r.Target().value)
    ensures HasFittingEtag(md5, Apply(s, md5, r).0, r.Target().value)
  {
    match r
    case CompleteRequest(place, upload, caller, list) =>
      if Apply(s, md5, r).1.Failed? {
        FailedCompletionKeepsObjects(s, md5, r, place);
      } else {
        CompletionSucceedsIffReady(s, md5, place, upload, caller, list);
        CompletedObject(s, md5, place, upload.value, caller, list.value);
        assert EtagFits(md5, Concat(Bodies(s.root, upload.value, list.value)), Apply(s, md5, r).1.answer);
      }
    case PutRequest(place, body, _) => HexSpells(md5(body));
    case DeleteRequest(place) =>
  }

  /** Whatever is put, completed, failed, aborted and deleted, one request after another: every stored ETag fits the bytes it is stored for. */
  lemma {:induction false} StoredEtagsFit(states: seq<State>, requests: seq<Request>, md5: Text -> Text, i: nat, place: Place)
    requires IsRun(states, requests, md5) && i < |states| && states[0].objects == map[]
    ensures HasFittingEtag(md5, states[i], place)
  {
    if i > 0 {
      StoredEtagsFit(states, requests, md5, i - 1, place);
      RunStep(states, requests, md5, i - 1);
      if requests[i - 1].Target() == Some(place) {
        TargetGetsFittingEtag(states[i - 1], md5, requests[i - 1]);
      } else {
        OtherPlaceKeepsEtag(states[i - 1], md5, requests[i - 1], place);
      }
    }
  }

  // ---- Aborting ----

  /**
   * An abort leaves every file of other sessions and of objects as it was, and of its own session nothing, unless it
   * names another place than the session's: then the sidecar stays behind.
   */
  lemma AbortIsExact(s: State, place: Place, u: Text, caller: Option<Text>, id: FileId)
    requires IsUuid(u) && id.Valid() && Denial(s.root, u, caller).None?
    ensures var after := Abort(s, place, Some(u), caller).0;
      && after.objects == s.objects
      && (SessionOf(id) != Some(u) ==> SameAt(s.root, after.root, id))
      && (SessionOf(id) == Some(u) ==> (NameOf(id) in after.root <==> NameOf(id) in s.root && id.SidecarFile? && id != Sidecar(place, Some(u))))
  {
    OtherOrSame(id, MarkerFile(u));
    OtherOrSame(id, Sidecar(place, Some(u)));
    PartsPrefixFindsParts(u, id);
  }

  /** Sent for the session's own place, an abort leaves none of its files. */
  lemma AbortInPlaceLeavesNothing(s: State, place: Place, u: Text, caller: Option<Text>, ids: set<Text>, id: FileId)
    requires WellMade(s.root, ids) && IsUuid(u) && id.Valid() && Denial(s.root, u, caller).None?
    requires SessionOf(id) == Some(u) && NameOf(Sidecar(place, Some(u))) in s.root
    ensures NameOf(id) !in Abort(s, place, Some(u), caller).0.root
  {
    AbortIsExact(s, place, u, caller, id);
    if id.SidecarFile? {
      var other := Place(id.bucket, id.key);
      assert id == Sidecar(other, Some(u));
    }
  }

  lemma OtherOrSame(a: FileId, b: FileId)
    requires a.Valid() && b.Valid()
    ensures NameOf(a) == NameOf(b) <==> a == b
  {
    NameOfIsInjective(a, b);
  }

  // ---- Listing the sessions ----

  datatype Upload = Upload(id: Text, place: Option<Place>)

  function NamedIn(name: Text): Option<Session> {
    if ParseMarker(name).Some? then None else ParseSidecar(name)
  }

  /** Some file is the marker of `u`. */
  ghost predicate HasMarker(root: map<Text, Content>, u: Text) {
    exists name | name in root :: ParseMarker(name) == Some(u)
  }

  /** Some file is a sidecar that places upload `u`. */
  ghost predicate HasPlace(root: map<Text, Content>, u: Text, place: Place) {
    exists name | name in root :: NamedIn(name) == Some(Session(u, place.bucket, place.key))
  }

  /** One entry for each marker, in the order of the ids, with a place that some sidecar gives it if any does. */
  ghost predicate IsListing(root: map<Text, Content>, list: seq<Upload>) {
    && (forall i, j | 0 <= i < j < |list| :: Less(list[i].id, list[j].id))
    && (forall u | HasMarker(root, u) :: exists i :: 0 <= i < |list| && list[i].id == u)
    && (forall i | 0 <= i < |list| :: HasMarker(root, list[i].id))
    && (forall i | 0 <= i < |list| && list[i].place.Some? :: HasPlace(root, list[i].id, list[i].place.value))
    && (forall i, place | 0 <= i < |list| && HasPlace(root, list[i].id, place) :: list[i].place.Some?)
  }

  /** What the scanner makes of each file. */
  lemma ScannerReads(id: FileId)
    requires id.Valid() && !id.TmpFile?
    requires id.SidecarFile? && id.session.Some? ==> IsUtf8(id.bucket) && IsUtf8(id.key)
    ensures ParseMarker(NameOf(id)) == if id.MarkerFile? then Some(id.upload) else None
    ensures NamedIn(NameOf(id)) == if id.SidecarFile? && id.session.Some? then Some(Session(id.session.value, id.bucket, id.key)) else None
  {
    NameTellsKind(id);
    match id
    case MarkerFile(u) => ScannerReadsMarker(u);
    case SidecarFile(b, k, u) =>
      if u.Some? {
        ScannerReadsSidecar(b, k, u.value);
      } else {
        ScannerIgnoresPlainSidecar(b, k);
      }
    case InfoFile(b, k) => ScannerIgnoresInfo(b, k);
    case PartFile(u, n) =>
  }

  lemma MarkersAreSessions(root: map<Text, Content>, ids: set<Text>, u: Text)
    requires WellMade(root, ids)
    ensures HasMarker(root, u) <==> IsUuid(u) && NameOf(MarkerFile(u)) in root
  {
    if HasMarker(root, u) {
      var name :| name in root && ParseMarker(name) == Some(u);
      assert IsKnown(name, root[name], ids);
      var id: FileId :| id.Valid() && NameOf(id) == name && Fits(id, root[name]);
      ScannerReads(id);
    } else if NameOf(MarkerFile(u)) in root {
      ScannerReadsMarker(u);
    }
  }

  lemma PlacesAreSidecars(root: map<Text, Content>, ids: set<Text>, u: Text, place: Place)
    requires WellMade(root, ids) && IsUuid(u)
    ensures HasPlace(root, u, place) <==> NameOf(Sidecar(place, Some(u))) in root
  {
    var sidecar := Sidecar(place, Some(u));
    if HasPlace(root, u, place) {
      var name :| name in root && NamedIn(name) == Some(Session(u, place.bucket, place.key));
      assert IsKnown(name, root[name], ids);
      var id: FileId :| id.Valid() && NameOf(id) == name && Fits(id, root[name]);
      ScannerReads(id);
    } else if NameOf(sidecar) in root {
      KnownFile(root, ids, sidecar);
      ScannerReads(sidecar);
    }
  }

  /** On a root the sessions have made, a listing is determined: the open sessions, each with its own place. */
  lemma ListingIsExact(root: map<Text, Content>, ids: set<Text>, list: seq<Upload>, u: Text, place: Place)
    requires WellMade(root, ids) && IsListing(root, list) && IsUuid(u)
    ensures NameOf(MarkerFile(u)) in root <==> exists i :: 0 <= i < |list| && list[i].id == u
    ensures forall i | 0 <= i < |list| && list[i].id == u :: list[i].place == Some(place) <==> NameOf(Sidecar(place, Some(u))) in root
  {
    MarkersAreSessions(root, ids, u);
    PlacesAreSidecars(root, ids, u, place);
    forall i | 0 <= i < |list| && list[i].id == u ensures list[i].place == Some(place) <==> NameOf(Sidecar(place, Some(u))) in root {
      if NameOf(Sidecar(place, Some(u))) in root {
        PlacesAreSidecars(root, ids, u, list[i].place.value);
      }
    }
  }
}
