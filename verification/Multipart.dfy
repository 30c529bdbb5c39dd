/** The multipart requests as the server carries them out, file by file and buffer by buffer. */
module Multipart {
  import opened Bytes
  import opened Hashing
  import opened SessionNames
  import opened Sessions
  import opened SessionRuns

  const BUFFER_SIZE: nat := 65536

  ghost predicate Computes<H(!new)>(h: Hasher<H>, md5: Text -> Text) {
    Lawful(h) && forall body: Text :: md5(body) == Digest(h, body)
  }

  /** Copies a part behind what is already written and hashes it on the way. A read returns some bytes, up to a buffer full. */
  method CopyPart<H(!new)>(h: Hasher<H>, body: Text, written: Text) returns (digest: Text, out: Text, size: nat)
    requires Lawful(h)
    ensures digest == Digest(h, body)
    ensures out == written + body
    ensures size == |body|
  {
    var state := h.init;
    out, size := written, 0;
    UpdateAppends(h, [], []);
    while size < |body|
      invariant size <= |body|
      invariant state == h.update(h.init, body[..size])
      invariant out == written + body[..size]
    {
      var n: nat :| 1 <= n <= BUFFER_SIZE && size + n <= |body|;
      var buf := body[size..size + n];
      UpdateAppends(h, body[..size], buf);
      NextSlice(written, body, size, n);
      state := h.update(state, buf);
      out := out + buf;
      size := size + n;
    }
    assert body[..size] == body;
    digest := h.finalize(state);
  }

  lemma NextSlice(front: Text, body: Text, i: nat, n: nat)
    requires i + n <= |body|
    ensures body[..i] + body[i..i + n] == body[..i + n]
    ensures front + body[..i] + body[i..i + n] == front + body[..i + n]
  {
  }

  /** Hashes a part's body chunk by chunk as it streams in. */
  method CopyStream<H(!new)>(h: Hasher<H>, chunks: seq<Text>) returns (digest: Text, body: Text)
    requires Lawful(h)
    ensures body == Concat(chunks) && digest == Digest(h, Concat(chunks))
  {
    var state := h.init;
    body := [];
    UpdateAppends(h, [], []);
    for i := 0 to |chunks|
      invariant body == Concat(chunks[..i])
      invariant state == h.update(h.init, body)
    {
      assert chunks[..i + 1] == chunks[..i] + [chunks[i]];
      ConcatSnoc(chunks[..i], chunks[i]);
      UpdateAppends(h, body, chunks[i]);
      state := h.update(state, chunks[i]);
      body := body + chunks[i];
    }
    assert chunks[..|chunks|] == chunks;
    digest := h.finalize(state);
  }

  /** The first `i` parts are in order, and none of them is missing or too small. */
  ghost predicate Checked(begun: map<Text, Content>, u: Text, parts: seq<Option<PartNumber>>, i: nat, last: int) {
    && i <= |parts|
    && (forall k | 0 <= k < i :: Problem(begun, u, parts, k).None?)
    && (forall k | 0 <= k < i :: Number(parts[k]) <= last)
    && last == LastNumber(parts, i)
  }

  lemma CheckedNext(begun: map<Text, Content>, u: Text, parts: seq<Option<PartNumber>>, i: nat, last: int)
    requires i < |parts| && Checked(begun, u, parts, i, last) && Problem(begun, u, parts, i).None?
    ensures Checked(begun, u, parts, i + 1, parts[i].value)
  {
  }

  /** The first `i` parts are written out and hashed. */
  ghost predicate Copied(begun: map<Text, Content>, md5: Text -> Text, u: Text, parts: seq<Option<PartNumber>>, i: nat, written: Text, partMd5s: Text) {
    && i <= |parts|
    && written == Concat(Bodies(begun, u, parts[..i]))
    && partMd5s == Concat(Digests(md5, Bodies(begun, u, parts[..i])))
  }

  /** The files of the first `i` parts are gone. */
  ghost predicate Removed(begun: map<Text, Content>, u: Text, parts: seq<Option<PartNumber>>, i: nat, root: map<Text, Content>) {
    i <= |parts| && root == begun - PartNames(u, parts[..i])
  }

  /** The files left show of the next part what the files there were at the start would show. */
  lemma AtPart(begun: map<Text, Content>, u: Text, parts: seq<Option<PartNumber>>, i: nat, last: int, root: map<Text, Content>)
    requires IsUuid(u) && i < |parts| && Checked(begun, u, parts, i, last) && Removed(begun, u, parts, i, root)
    ensures parts[i].Some? && parts[i].value > last ==>
      HasPart(root, u, parts[i].value) == HasPart(begun, u, parts[i].value) && BodyOf(root, u, parts[i].value) == BodyOf(begun, u, parts[i].value)
  {
    if parts[i].Some? && parts[i].value > last {
      PartNamesAreParts(u, parts[..i], PartFile(u, parts[i].value));
    }
  }

  lemma RemovedNext(begun: map<Text, Content>, u: Text, parts: seq<Option<PartNumber>>, i: nat, root: map<Text, Content>)
    requires i < |parts| && Removed(begun, u, parts, i, root)
    ensures Removed(begun, u, parts, i + 1, root - {NameOf(PartFile(u, Number(parts[i])))})
  {
  }

  lemma CopiedNext(begun: map<Text, Content>, md5: Text -> Text, u: Text, parts: seq<Option<PartNumber>>, i: nat, written: Text, partMd5s: Text)
    requires i < |parts| && Copied(begun, md5, u, parts, i, written, partMd5s)
    ensures var body := BodyOf(begun, u, Number(parts[i]));
      Copied(begun, md5, u, parts, i + 1, written + body, partMd5s + md5(body))
  {
    BodiesSnoc(begun, md5, u, parts, i);
  }

  lemma BodiesSnoc(root: map<Text, Content>, md5: Text -> Text, u: Text, parts: seq<Option<PartNumber>>, i: nat)
    requires i < |parts|
    ensures var before, after := Bodies(root, u, parts[..i]), Bodies(root, u, parts[..i + 1]);
      && Concat(after) == Concat(before) + BodyOf(root, u, Number(parts[i]))
      && Concat(Digests(md5, after)) == Concat(Digests(md5, before)) + md5(BodyOf(root, u, Number(parts[i])))
  {
    var before, body := Bodies(root, u, parts[..i]), BodyOf(root, u, Number(parts[i]));
    assert Bodies(root, u, parts[..i + 1]) == before + [body];
    assert Digests(md5, before + [body]) == Digests(md5, before) + [md5(body)];
    ConcatSnoc(before, body);
    ConcatSnoc(Digests(md5, before), md5(body));
  }

  // ---- Scanning ----

  /** The files no longer pending have been read. */
  ghost predicate Scanned(root: map<Text, Content>, pending: set<Text>, bucketKey: map<Text, Place>, uploads: seq<Text>) {
    && pending <= root.Keys
    && (forall u | u in bucketKey :: HasPlace(root, u, bucketKey[u]))
    && (forall name | name in root && name !in pending && NamedIn(name).Some? :: NamedIn(name).value.uploadId in bucketKey)
    && (forall name | name in root && name !in pending && ParseMarker(name).Some? :: ParseMarker(name).value in uploads)
    && (forall u | u in uploads :: HasMarker(root, u) && forall name | name in pending :: ParseMarker(name) != Some(u))
    && (forall i, j | 0 <= i < j < |uploads| :: uploads[i] != uploads[j])
  }

  lemma MarkerShape(name: Text)
    ensures ParseMarker(name).Some? ==> name == Ascii(".upload-") + (ParseMarker(name).value + Ascii(".json"))
  {
  }

  lemma MarkerTellsName(a: Text, b: Text)
    requires ParseMarker(a).Some? && ParseMarker(a) == ParseMarker(b)
    ensures a == b
  {
    MarkerShape(a);
    MarkerShape(b);
  }

  lemma ScanNext(root: map<Text, Content>, pending: set<Text>, bucketKey: map<Text, Place>, uploads: seq<Text>, name: Text)
    requires Scanned(root, pending, bucketKey, uploads) && name in pending
    ensures ParseMarker(name).Some? ==> Scanned(root, pending - {name}, bucketKey, uploads + [ParseMarker(name).value])
    ensures ParseMarker(name).None? && ParseSidecar(name).Some? ==>
      var found := ParseSidecar(name).value;
      Scanned(root, pending - {name}, bucketKey[found.uploadId := Place(found.bucket, found.key)], uploads)
    ensures ParseMarker(name).None? && ParseSidecar(name).None? ==> Scanned(root, pending - {name}, bucketKey, uploads)
  {
    if ParseMarker(name).Some? {
      ScanMarker(root, pending, bucketKey, uploads, name);
    } else if ParseSidecar(name).Some? {
      var found := ParseSidecar(name).value;
      ScanSidecar(root, pending, bucketKey, uploads, name, found.uploadId, Place(found.bucket, found.key));
    } else {
      ScanOther(root, pending, bucketKey, uploads, name);
    }
  }

  lemma ScanOther(root: map<Text, Content>, pending: set<Text>, bucketKey: map<Text, Place>, uploads: seq<Text>, name: Text)
    requires Scanned(root, pending, bucketKey, uploads) && name in pending && ParseMarker(name).None? && NamedIn(name).None?
    ensures Scanned(root, pending - {name}, bucketKey, uploads)
  {
  }

  lemma ScanSidecar(root: map<Text, Content>, pending: set<Text>, bucketKey: map<Text, Place>, uploads: seq<Text>, name: Text, u: Text, place: Place)
    requires Scanned(root, pending, bucketKey, uploads) && name in pending && ParseMarker(name).None?
    requires NamedIn(name) == Some(Session(u, place.bucket, place.key))
    ensures Scanned(root, pending - {name}, bucketKey[u := place], uploads)
  {
  }

  lemma ScanMarker(root: map<Text, Content>, pending: set<Text>, bucketKey: map<Text, Place>, uploads: seq<Text>, name: Text)
    requires Scanned(root, pending, bucketKey, uploads) && name in pending && ParseMarker(name).Some?
    ensures Scanned(root, pending - {name}, bucketKey, uploads + [ParseMarker(name).value])
  {
    var u := ParseMarker(name).value;
    assert HasMarker(root, u);
    forall other | other in pending - {name} ensures ParseMarker(other) != Some(u) {
      if ParseMarker(other) == Some(u) {
        MarkerTellsName(name, other);
      }
    }
    assert u !in uploads;
  }

  function Placed(uploads: seq<Text>, bucketKey: map<Text, Place>): seq<Upload> {
    seq(|uploads|, i requires 0 <= i < |uploads| =>
      Upload(uploads[i], if uploads[i] in bucketKey then Some(bucketKey[uploads[i]]) else None))
  }

  function Inserted(entry: Upload, list: seq<Upload>): seq<Upload> {
    if list == [] || !Less(list[0].id, entry.id) then [entry] + list
    else [list[0]] + Inserted(entry, list[1..])
  }

  function SortById(list: seq<Upload>): seq<Upload> {
    if list == [] then [] else Inserted(list[0], SortById(list[1..]))
  }

  ghost predicate IdsAscend(list: seq<Upload>) {
    forall i, j | 0 <= i < j < |list| :: Less(list[i].id, list[j].id)
  }

  lemma InFront(first: Upload, rest: seq<Upload>)
    requires IdsAscend(rest) && forall e | e in rest :: Less(first.id, e.id)
    ensures IdsAscend([first] + rest)
  {
  }

  lemma {:induction false} InsertedAscends(entry: Upload, list: seq<Upload>)
    requires IdsAscend(list) && forall e | e in list :: e.id != entry.id
    ensures IdsAscend(Inserted(entry, list))
    ensures forall e :: e in Inserted(entry, list) <==> e == entry || e in list
  {
    if list != [] {
      LessTotal(list[0].id, entry.id);
      var rest := list[1..];
      assert list == [list[0]] + rest;
      if Less(list[0].id, entry.id) {
        InsertedAscends(entry, rest);
        InFront(list[0], Inserted(entry, rest));
      } else {
        forall j | 0 < j < |list| ensures Less(entry.id, list[j].id) {
          LessTransitive(entry.id, list[0].id, list[j].id);
        }
      }
    }
  }

  lemma {:induction false} SortByIdSorts(list: seq<Upload>)
    requires forall i, j | 0 <= i < j < |list| :: list[i].id != list[j].id
    ensures IdsAscend(SortById(list))
    ensures forall e :: e in SortById(list) <==> e in list
  {
    if list != [] {
      SortByIdSorts(list[1..]);
      assert list == [list[0]] + list[1..];
      InsertedAscends(list[0], SortById(list[1..]));
    }
  }

  lemma ListIsListing(root: map<Text, Content>, bucketKey: map<Text, Place>, uploads: seq<Text>)
    requires Scanned(root, {}, bucketKey, uploads)
    ensures IsListing(root, SortById(Placed(uploads, bucketKey)))
  {
    var placed := Placed(uploads, bucketKey);
    SortByIdSorts(placed);
    var list := SortById(placed);
    forall u | HasMarker(root, u) ensures exists i :: 0 <= i < |list| && list[i].id == u {
      var name :| name in root && ParseMarker(name) == Some(u);
      var k :| 0 <= k < |uploads| && uploads[k] == u;
      assert placed[k] in list;
    }
    forall i | 0 <= i < |list|
      ensures HasMarker(root, list[i].id)
      ensures list[i].place.Some? ==> HasPlace(root, list[i].id, list[i].place.value)
      ensures list[i].place.None? ==> list[i].id !in bucketKey
    {
      assert list[i] in placed;
      var k :| 0 <= k < |placed| && placed[k] == list[i];
      assert uploads[k] in uploads;
    }
    forall i, place | 0 <= i < |list| && HasPlace(root, list[i].id, place) ensures list[i].place.Some? {
      var name :| name in root && NamedIn(name) == Some(Session(list[i].id, place.bucket, place.key));
      assert list[i].id in bucketKey;
    }
  }

  /** How far an assembly is after `i` parts. */
  ghost predicate Assembled(begun: map<Text, Content>, md5: Text -> Text, u: Text, parts: seq<Option<PartNumber>>, i: nat,
                            root: map<Text, Content>, last: int, written: Text, partMd5s: Text)
  {
    forall o: int {:trigger Opened(o)} | Opened(o) ::
      Checked(begun, u, parts, i, last) && Removed(begun, u, parts, i, root) && Copied(begun, md5, u, parts, i, written, partMd5s)
  }

  /** What an assembly comes to: the parts consumed before the first problem are gone; without a problem, all are written out. */
  ghost predicate Assembly(begun: map<Text, Content>, md5: Text -> Text, u: Text, parts: seq<Option<PartNumber>>,
                           root: map<Text, Content>, problem: Option<Error>, written: Text, partMd5s: Text)
  {
    forall o: int {:trigger Opened(o)} | Opened(o) ::
      var n := Consumed(begun, u, parts, 0);
      && Removed(begun, u, parts, n, root)
      && problem == (if n < |parts| then Problem(begun, u, parts, n) else None)
      && (problem.None? ==> Copied(begun, md5, u, parts, |parts|, written, partMd5s))
  }

  lemma NextAssembled(begun: map<Text, Content>, md5: Text -> Text, u: Text, parts: seq<Option<PartNumber>>, i: nat,
                      root: map<Text, Content>, last: int, written: Text, partMd5s: Text)
    requires i < |parts| && Assembled(begun, md5, u, parts, i, root, last, written, partMd5s) && Problem(begun, u, parts, i).None?
    ensures var number := parts[i].value; var body := BodyOf(begun, u, number);
      Assembled(begun, md5, u, parts, i + 1, root - {NameOf(PartFile(u, number))}, number, written + body, partMd5s + md5(body))
  {
    assert Opened(0);
    CheckedNext(begun, u, parts, i, last);
    RemovedNext(begun, u, parts, i, root);
    CopiedNext(begun, md5, u, parts, i, written, partMd5s);
  }

  lemma PartInHand(begun: map<Text, Content>, md5: Text -> Text, u: Text, parts: seq<Option<PartNumber>>, i: nat,
                   root: map<Text, Content>, last: int, written: Text, partMd5s: Text)
    requires IsUuid(u) && i < |parts| && Assembled(begun, md5, u, parts, i, root, last, written, partMd5s)
    ensures last == LastNumber(parts, i)
    ensures parts[i].Some? && parts[i].value > last ==>
      HasPart(root, u, parts[i].value) == HasPart(begun, u, parts[i].value) && BodyOf(root, u, parts[i].value) == BodyOf(begun, u, parts[i].value)
    ensures Problem(begun, u, parts, i).Some? ==> Assembly(begun, md5, u, parts, root, Problem(begun, u, parts, i), written, partMd5s)
  {
    assert Opened(0);
    AtPart(begun, u, parts, i, last, root);
  }

  lemma DoneIsComposite(s: State, md5: Text -> Text, place: Place, upload: Option<Text>, caller: Option<Text>, list: Option<seq<Option<PartNumber>>>)
    requires upload.Some? ==> IsUuid(upload.value)
    ensures var outcome := Complete(s, md5, place, upload, caller, list).1;
      outcome.Done? ==> upload.Some? && list.Some? && IsCompositeEtag(md5, Bodies(s.root, upload.value, list.value), outcome.answer)
  {
    if Complete(s, md5, place, upload, caller, list).1.Done? {
      CompletedObject(s, md5, place, upload.value, caller, list.value);
    }
  }

  class DataRoot {
    var root: map<Text, Content>
    var objects: map<Place, Text>

    function Value(): State
      reads this
    {
      State(root, objects)
    }

    method CreateMultipartUpload(place: Place, u: Text, owner: Option<Text>, attributes: Text) returns (outcome: Outcome)
      modifies this
      ensures (Value(), outcome) == Create(old(Value()), place, u, owner, attributes)
    {
      root := root[NameOf(MarkerFile(u)) := Marker(owner)];
      root := root[NameOf(Sidecar(place, Some(u))) := Attributes(attributes)];
      outcome := Done(u);
    }

    method UploadPart<H(!new)>(h: Hasher<H>, ghost md5: Text -> Text, upload: Option<Text>, caller: Option<Text>, number: PartNumber, chunks: Option<seq<Text>>) returns (outcome: Outcome)
      requires Computes(h, md5)
      modifies this
      ensures (Value(), outcome) == Sessions.UploadPart(old(Value()), md5, upload, caller, number, chunks)
      ensures outcome.Done? ==> chunks.Some? && SpellsHex(outcome.answer, md5(Concat(chunks.value)))
    {
      UploadAcceptedIff(Value(), md5, upload, caller, number, chunks);
      if !(1 <= number <= 10_000) {
        return Failed(InvalidArgument);
      }
      if chunks.None? {
        return Failed(IncompleteBody);
      }
      if upload.None? {
        return Failed(InvalidRequest);
      }
      var denied := Denial(root, upload.value, caller);
      if denied.Some? {
        return Failed(denied.value);
      }
      var digest, body := CopyStream(h, chunks.value);
      root := root[NameOf(PartFile(upload.value, number)) := PartBody(body)];
      outcome := Done(Hex(digest));
    }

    /** Appends the listed parts to one text, each checked, copied and then removed, up to the first that is not right. */
    method AssembleParts<H(!new)>(h: Hasher<H>, ghost md5: Text -> Text, u: Text, parts: seq<Option<PartNumber>>) returns (problem: Option<Error>, written: Text, partMd5s: Text)
      requires Computes(h, md5) && IsUuid(u)
      modifies this`root
      ensures Assembly(old(root), md5, u, parts, root, problem, written, partMd5s)
    {
      ghost var begun := root;
      written, partMd5s := [], [];
      var last := 0;
      for i := 0 to |parts|
        invariant Assembled(begun, md5, u, parts, i, root, last, written, partMd5s)
      {
        PartInHand(begun, md5, u, parts, i, root, last, written, partMd5s);
        if parts[i].None? {
          return Some(InvalidRequest), written, partMd5s;
        }
        var number := parts[i].value;
        if number <= last {
          return Some(InvalidPartOrder), written, partMd5s;
        }
        last := number;
        if !HasPart(root, u, number) {
          return Some(InternalError), written, partMd5s;
        }
        ghost var before, md5sBefore := written, partMd5s;
        var digest, size;
        digest, written, size := CopyPart(h, BodyOf(root, u, number), written);
        partMd5s := partMd5s + digest;
        if i + 1 != |parts| && size < MIN_PART_SIZE {
          return Some(EntityTooSmall), written, partMd5s;
        }
        NextAssembled(begun, md5, u, parts, i, root, LastNumber(parts, i), before, md5sBefore);
        root := root - {NameOf(PartFile(u, number))};
      }
      problem := None;
    }

    method CompleteMultipartUpload<H(!new)>(h: Hasher<H>, ghost md5: Text -> Text, place: Place, upload: Option<Text>, caller: Option<Text>, list: Option<seq<Option<PartNumber>>>) returns (outcome: Outcome)
      requires Computes(h, md5) && (upload.Some? ==> IsUuid(upload.value))
      modifies this
      ensures (Value(), outcome) == Complete(old(Value()), md5, place, upload, caller, list)
      ensures outcome.Done? ==> upload.Some? && list.Some? && IsCompositeEtag(md5, Bodies(old(root), upload.value, list.value), outcome.answer)
    {
      DoneIsComposite(Value(), md5, place, upload, caller, list);
      if list.None? {
        return Failed(InvalidPart);
      }
      if upload.None? {
        return Failed(InvalidRequest);
      }
      var u, parts := upload.value, list.value;
      var denied := Denial(root, u, caller);
      if denied.Some? {
        return Failed(denied.value);
      }
      root := root - {NameOf(MarkerFile(u))};
      root := MoveAttributes(root, place, u);
      var problem, written, partMd5s := AssembleParts(h, md5, u, parts);
      assert Opened(0);
      if problem.Some? {
        return Failed(problem.value);
      }
      assert parts[..|parts|] == parts;
      objects := objects[place := written];
      var etag := Hex(Digest(h, partMd5s)) + [DASH] + Decimal(|parts|);
      root := root[NameOf(InfoOf(place)) := Info(etag)];
      outcome := Done(etag);
    }

    method AbortMultipartUpload(place: Place, upload: Option<Text>, caller: Option<Text>) returns (outcome: Outcome)
      modifies this
      ensures (Value(), outcome) == Abort(old(Value()), place, upload, caller)
    {
      if upload.None? {
        return Failed(InvalidRequest);
      }
      var u := upload.value;
      var denied := Denial(root, u, caller);
      if denied.Some? {
        return Failed(denied.value);
      }
      root := root - {NameOf(Sidecar(place, Some(u)))};
      ghost var before := root;
      var pending := root.Keys;
      while pending != {}
        invariant objects == old(objects)
        invariant pending <= root.Keys
        invariant root == before - (set name | name in before && name !in pending && PartsPrefix(u) <= name)
        decreases pending
      {
        var name :| name in pending;
        pending := pending - {name};
        if PartsPrefix(u) <= name {
          root := root - {name};
        }
      }
      ghost var gone := set name | name in old(root) && PartsPrefix(u) <= name;
      assert root == old(root) - {NameOf(Sidecar(place, Some(u)))} - gone;
      root := root - {NameOf(MarkerFile(u))};
      outcome := Done([]);
    }

    /** Scans the files in whatever order they come. */
    method ListMultipartUploads() returns (list: seq<Upload>)
      ensures IsListing(root, list)
    {
      var bucketKey: map<Text, Place> := map[];
      var uploads: seq<Text> := [];
      var pending := root.Keys;
      while pending != {}
        invariant Scanned(root, pending, bucketKey, uploads)
        decreases pending
      {
        var name :| name in pending;
        ScanNext(root, pending, bucketKey, uploads, name);
        pending := pending - {name};
        var marker, sidecar := ParseMarker(name), ParseSidecar(name);
        if marker.Some? {
          uploads := uploads + [marker.value];
        } else if sidecar.Some? {
          bucketKey := bucketKey[sidecar.value.uploadId := Place(sidecar.value.bucket, sidecar.value.key)];
        }
      }
      list := SortById(Placed(uploads, bucketKey));
      ListIsListing(root, bucketKey, uploads);
    }
  }
}
