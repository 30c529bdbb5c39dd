/** Multipart sessions: what each request does to the files of a data root. */
module Sessions {
  import opened Bytes
  import opened Hashing
  import opened SessionNames

  datatype Place = Place(bucket: Text, key: Text)

  datatype Content =
    /** Who opened the session. */
    | Marker(owner: Option<Text>)
    | PartBody(body: Text)
    | Attributes(attributes: Text)
    /** An ETag stored with the bytes, hence without a stamp. */
    | Info(etag: Text)

  datatype State = State(root: map<Text, Content>, objects: map<Place, Text>)

  type PartNumber = n: int | -0x8000_0000 <= n < 0x8000_0000

  datatype Error = NoSuchKey | InvalidArgument | IncompleteBody | InvalidPart | InvalidRequest | AccessDenied | InvalidPartOrder | EntityTooSmall | InternalError

  datatype Outcome = Done(answer: Text) | Failed(error: Error)

  const MIN_PART_SIZE: nat := 5 * 1024 * 1024

  function Sidecar(place: Place, u: Option<Text>): FileId {
    SidecarFile(place.bucket, place.key, u)
  }

  function InfoOf(place: Place): FileId {
    InfoFile(place.bucket, place.key)
  }

  /** Why a caller may not use an upload; `None` when it may. */
  function Denial(root: map<Text, Content>, u: Text, caller: Option<Text>): Option<Error> {
    var name := NameOf(MarkerFile(u));
    if name !in root then Some(AccessDenied)
    else if !root[name].Marker? then Some(InternalError)
    else if root[name].owner == caller then None
    else Some(AccessDenied)
  }

  predicate HasPart(root: map<Text, Content>, u: Text, n: nat) {
    var name := NameOf(PartFile(u, n));
    name in root && root[name].PartBody?
  }

  function BodyOf(root: map<Text, Content>, u: Text, n: nat): Text {
    var name := NameOf(PartFile(u, n));
    if name in root && root[name].PartBody? then root[name].body else []
  }

  // ---- Completion ----

  function LastNumber(parts: seq<Option<PartNumber>>, i: nat): nat
    requires i <= |parts|
  {
    if i == 0 || parts[i - 1].None? || parts[i - 1].value < 0 then 0 else parts[i - 1].value
  }

  /** What is wrong with part `i` of a list whose earlier parts are right. */
  function Problem(root: map<Text, Content>, u: Text, parts: seq<Option<PartNumber>>, i: nat): Option<Error>
    requires i < |parts|
  {
    if parts[i].None? then Some(InvalidRequest)
    else if parts[i].value <= LastNumber(parts, i) then Some(InvalidPartOrder)
    else if !HasPart(root, u, parts[i].value) then Some(InternalError)
    else if i + 1 != |parts| && |BodyOf(root, u, parts[i].value)| < MIN_PART_SIZE then Some(EntityTooSmall)
    else None
  }

  /** How many parts are consumed before the first one that is not right. */
  function Consumed(root: map<Text, Content>, u: Text, parts: seq<Option<PartNumber>>, from: nat): (n: nat)
    requires from <= |parts|
    ensures from <= n <= |parts|
    ensures forall i | from <= i < n :: Problem(root, u, parts, i).None?
    ensures n < |parts| ==> Problem(root, u, parts, n).Some?
    decreases |parts| - from
  {
    if from == |parts| || Problem(root, u, parts, from).Some? then from else Consumed(root, u, parts, from + 1)
  }

  function Number(part: Option<PartNumber>): nat {
    if part.Some? && part.value >= 0 then part.value else 0
  }

  function PartNames(u: Text, parts: seq<Option<PartNumber>>): set<Text> {
    set p | p in parts :: NameOf(PartFile(u, Number(p)))
  }

  function Bodies(root: map<Text, Content>, u: Text, parts: seq<Option<PartNumber>>): seq<Text> {
    seq(|parts|, i requires 0 <= i < |parts| => BodyOf(root, u, Number(parts[i])))
  }

  function Digests(md5: Text -> Text, bodies: seq<Text>): seq<Text> {
    seq(|bodies|, i requires 0 <= i < |bodies| => md5(bodies[i]))
  }

  /** The hash of the part hashes, a dash, and how many there are. */
  function CompositeEtag(md5: Text -> Text, bodies: seq<Text>): Text {
    Hex(md5(Concat(Digests(md5, bodies)))) + [DASH] + Decimal(|bodies|)
  }

  /** The attributes given when the session was opened become those of the object. */
  function MoveAttributes(root: map<Text, Content>, place: Place, u: Text): map<Text, Content> {
    var from, to := NameOf(Sidecar(place, Some(u))), NameOf(Sidecar(place, None));
    if from in root && root[from].Attributes? then root[to := root[from]] - {from} else root
  }

  function Begun(root: map<Text, Content>, place: Place, u: Text): map<Text, Content> {
    MoveAttributes(root - {NameOf(MarkerFile(u))}, place, u)
  }

  function Complete(s: State, md5: Text -> Text, place: Place, upload: Option<Text>, caller: Option<Text>, list: Option<seq<Option<PartNumber>>>): (State, Outcome) {
    if list.None? then (s, Failed(InvalidPart))
    else if upload.None? then (s, Failed(InvalidRequest))
    else
      var u, parts := upload.value, list.value;
      var denied := Denial(s.root, u, caller);
      if denied.Some? then (s, Failed(denied.value))
      else
        var root := Begun(s.root, place, u);
        var n := Consumed(root, u, parts, 0);
        var left := root - PartNames(u, parts[..n]);
        if n < |parts| then
          (State(left, s.objects), Failed(Problem(root, u, parts, n).value))
        else
          var bodies := Bodies(root, u, parts);
          var etag := CompositeEtag(md5, bodies);
          (State(left[NameOf(InfoOf(place)) := Info(etag)], s.objects[place := Concat(bodies)]), Done(etag))
  }

  // ---- The other requests ----

  function Create(s: State, place: Place, u: Text, owner: Option<Text>, attributes: Text): (State, Outcome) {
    (s.(root := s.root[NameOf(MarkerFile(u)) := Marker(owner)][NameOf(Sidecar(place, Some(u))) := Attributes(attributes)]), Done(u))
  }

  function UploadPart(s: State, md5: Text -> Text, upload: Option<Text>, caller: Option<Text>, number: PartNumber, chunks: Option<seq<Text>>): (State, Outcome) {
    if !(1 <= number <= 10_000) then (s, Failed(InvalidArgument))
    else if chunks.None? then (s, Failed(IncompleteBody))
    else if upload.None? then (s, Failed(InvalidRequest))
    else
      var denied := Denial(s.root, upload.value, caller);
      if denied.Some? then (s, Failed(denied.value))
      else
        var body := Concat(chunks.value);
        (s.(root := s.root[NameOf(PartFile(upload.value, number)) := PartBody(body)]), Done(Hex(md5(body))))
  }

  function Abort(s: State, place: Place, upload: Option<Text>, caller: Option<Text>): (State, Outcome) {
    if upload.None? then (s, Failed(InvalidRequest))
    else
      var u := upload.value;
      var denied := Denial(s.root, u, caller);
      if denied.Some? then (s, Failed(denied.value))
      else
        var gone := set name | name in s.root && PartsPrefix(u) <= name;
        (s.(root := s.root - {NameOf(Sidecar(place, Some(u)))} - gone - {NameOf(MarkerFile(u))}), Done([]))
  }

  // ---- Plain objects on the same data root ----

  /** A put in one piece: the object, its attributes and the ETag of its bytes. */
  function Put(s: State, md5: Text -> Text, place: Place, body: Text, attributes: Text): (State, Outcome) {
    var etag := Hex(md5(body));
    (State(s.root[NameOf(Sidecar(place, None)) := Attributes(attributes)][NameOf(InfoOf(place)) := Info(etag)], s.objects[place := body]), Done(etag))
  }

  function Delete(s: State, place: Place): (State, Outcome) {
    if place !in s.objects then (s, Failed(NoSuchKey))
    else (State(s.root - {NameOf(Sidecar(place, None)), NameOf(InfoOf(place))}, s.objects - {place}), Done([]))
  }

  datatype Request =
    | CreateRequest(place: Place, id: Text, owner: Option<Text>, attributes: Text)
    | UploadRequest(upload: Option<Text>, caller: Option<Text>, number: PartNumber, chunks: Option<seq<Text>>)
    | CompleteRequest(place: Place, upload: Option<Text>, caller: Option<Text>, list: Option<seq<Option<PartNumber>>>)
    | AbortRequest(place: Place, upload: Option<Text>, caller: Option<Text>)
    | PutRequest(place: Place, body: Text, attributes: Text)
    | DeleteRequest(place: Place)
  {
    function Upload(): Option<Text> {
      if CreateRequest? then Some(id) else if PutRequest? || DeleteRequest? then None else upload
    }

    predicate Valid() {
      Upload().Some? ==> IsUuid(Upload().value)
    }

    /** The object a request may write to. */
    function Target(): Option<Place> {
      if CompleteRequest? || PutRequest? || DeleteRequest? then Some(place) else None
    }
  }

  function Apply(s: State, md5: Text -> Text, r: Request): (State, Outcome) {
    match r
    case CreateRequest(place, u, owner, attributes) => Create(s, place, u, owner, attributes)
    case UploadRequest(u, caller, number, chunks) => UploadPart(s, md5, u, caller, number, chunks)
    case CompleteRequest(place, u, caller, list) => Complete(s, md5, place, u, caller, list)
    case AbortRequest(place, u, caller) => Abort(s, place, u, caller)
    case PutRequest(place, body, attributes) => Put(s, md5, place, body, attributes)
    case DeleteRequest(place) => Delete(s, place)
  }

  // ---- A request keeps to its own session ----

  predicate OfSession(id: FileId, u: Text) {
    match id
    case MarkerFile(v) => u == v
    case PartFile(v, _) => u == v
    case SidecarFile(_, _, v) => v == Some(u)
    case _ => false
  }

  predicate OfObject(id: FileId, place: Place) {
    id == Sidecar(place, None) || id == InfoOf(place)
  }

  predicate SameAt(a: map<Text, Content>, b: map<Text, Content>, id: FileId) {
    var name := NameOf(id);
    (name in a <==> name in b) && (name in a ==> a[name] == b[name])
  }

  lemma OtherName(a: FileId, b: FileId)
    requires a.Valid() && b.Valid() && a != b
    ensures NameOf(a) != NameOf(b)
  {
    NameOfIsInjective(a, b);
  }

  lemma BeginningSparesOthers(root: map<Text, Content>, place: Place, u: Text, id: FileId)
    requires IsUuid(u) && id.Valid()
    requires id != MarkerFile(u) && id != Sidecar(place, Some(u)) && id != Sidecar(place, None)
    ensures SameAt(root, Begun(root, place, u), id)
  {
    OtherName(id, MarkerFile(u));
    OtherName(id, Sidecar(place, Some(u)));
    OtherName(id, Sidecar(place, None));
  }

  lemma PartNamesAreParts(u: Text, parts: seq<Option<PartNumber>>, id: FileId)
    requires IsUuid(u) && id.Valid()
    ensures NameOf(id) in PartNames(u, parts) <==> exists p | p in parts :: id == PartFile(u, Number(p))
  {
    if NameOf(id) in PartNames(u, parts) {
      var p :| p in parts && NameOf(id) == NameOf(PartFile(u, Number(p)));
      NameOfIsInjective(id, PartFile(u, Number(p)));
    }
  }

  /** No request changes a file of another session, nor one of an object it was not sent for. */
  lemma RequestsKeepToTheirSession(s: State, md5: Text -> Text, r: Request, id: FileId)
    requires r.Valid() && id.Valid()
    requires r.Upload().Some? ==> !OfSession(id, r.Upload().value)
    requires r.Target().Some? ==> !OfObject(id, r.Target().value)
    ensures SameAt(s.root, Apply(s, md5, r).0.root, id)
  {
    match r
    case CreateRequest(place, u, _, _) =>
      OtherName(id, MarkerFile(u));
      OtherName(id, Sidecar(place, Some(u)));
    case UploadRequest(upload, _, number, _) =>
      if upload.Some? && number >= 0 {
        OtherName(id, PartFile(upload.value, number));
      }
    case CompleteRequest(place, upload, caller, list) =>
      if upload.Some? && list.Some? {
        CompletionKeepsToItsSession(s, md5, place, upload.value, caller, list.value, id);
      }
    case AbortRequest(place, upload, caller) =>
      if upload.Some? {
        AbortKeepsToItsSession(s, place, upload.value, caller, id);
      }
    case PutRequest(place, _, _) =>
      OtherName(id, Sidecar(place, None));
      OtherName(id, InfoOf(place));
    case DeleteRequest(place) =>
      OtherName(id, Sidecar(place, None));
      OtherName(id, InfoOf(place));
  }

  lemma AbortKeepsToItsSession(s: State, place: Place, u: Text, caller: Option<Text>, id: FileId)
    requires IsUuid(u) && id.Valid() && !OfSession(id, u)
    ensures SameAt(s.root, Abort(s, place, Some(u), caller).0.root, id)
  {
    OtherName(id, MarkerFile(u));
    OtherName(id, Sidecar(place, Some(u)));
    PartsPrefixFindsParts(u, id);
  }

  lemma CompletionKeepsToItsSession(s: State, md5: Text -> Text, place: Place, u: Text, caller: Option<Text>, parts: seq<Option<PartNumber>>, id: FileId)
    requires IsUuid(u) && id.Valid() && !OfSession(id, u) && !OfObject(id, place)
    ensures SameAt(s.root, Complete(s, md5, place, Some(u), caller, Some(parts)).0.root, id)
  {
    BeginningSparesOthers(s.root, place, u, id);
    var n := Consumed(Begun(s.root, place, u), u, parts, 0);
    PartNamesAreParts(u, parts[..n], id);
    OtherName(id, InfoOf(place));
  }

  // ---- Upload ids ----

  /** Sixteen bytes in the form an upload id is printed in. */
  function UuidText(id: Text): Text
    requires |id| == 16
  {
    Hex(id[..4]) + [DASH] + Hex(id[4..6]) + [DASH] + Hex(id[6..8]) + [DASH] + Hex(id[8..10]) + [DASH] + Hex(id[10..])
  }

  lemma {:induction false} HexHasDigits(s: Text)
    ensures |Hex(s)| == 2 * |s| && forall i | 0 <= i < |Hex(s)| :: IsLowerHexDigit(Hex(s)[i])
  {
    if s != [] {
      HexHasDigits(s[1..]);
    }
  }

  lemma {:induction false} Unhex(t: Text) returns (s: Text)
    requires |t| % 2 == 0 && forall i | 0 <= i < |t| :: IsLowerHexDigit(t[i])
    ensures Hex(s) == t && 2 * |s| == |t|
  {
    if t == [] {
      s := [];
    } else {
      var high := DigitValue(t[0]);
      var low := DigitValue(t[1]);
      var rest := Unhex(t[2..]);
      s := [(16 * high + low) as Byte] + rest;
      assert s[1..] == rest && t == [t[0], t[1]] + t[2..];
    }
  }

  lemma DigitValue(c: Byte) returns (n: int)
    requires IsLowerHexDigit(c)
    ensures 0 <= n < 16 && HexDigit(n) == c
  {
    n := if c <= 57 then c as int - 48 else c as int - 97 + 10;
  }

  lemma UuidPieces(u: Text)
    requires IsUuid(u)
    ensures u == u[..8] + [DASH] + u[9..13] + [DASH] + u[14..18] + [DASH] + u[19..23] + [DASH] + u[24..]
  {
  }

  /** A text is an upload id exactly when it is sixteen bytes in that form. */
  lemma IsUuidIff(u: Text)
    ensures IsUuid(u) <==> exists id: Text :: |id| == 16 && UuidText(id) == u
  {
    if IsUuid(u) {
      var id := UuidBytes(u);
    }
    if id: Text :| |id| == 16 && UuidText(id) == u {
      HexHasDigits(id[..4]);
      HexHasDigits(id[4..6]);
      HexHasDigits(id[6..8]);
      HexHasDigits(id[8..10]);
      HexHasDigits(id[10..]);
    }
  }

  lemma UuidBytes(u: Text) returns (id: Text)
    requires IsUuid(u)
    ensures |id| == 16 && UuidText(id) == u
  {
    var a := Unhex(u[..8]);
    var b := Unhex(u[9..13]);
    var c := Unhex(u[14..18]);
    var d := Unhex(u[19..23]);
    var e := Unhex(u[24..]);
    id := a + b + c + d + e;
    assert id[..4] == a && id[4..6] == b && id[6..8] == c && id[8..10] == d && id[10..] == e;
    UuidPieces(u);
  }

  // ---- When a completion succeeds, and what it leaves ----

  /** The session's marker is there and names the caller. */
  ghost predicate OpenTo(root: map<Text, Content>, u: Text, caller: Option<Text>) {
    var name := NameOf(MarkerFile(u));
    name in root && root[name] == Marker(caller)
  }

  /** Who is let in, and which of the two errors everybody else gets. */
  lemma DenialTells(root: map<Text, Content>, u: Text, caller: Option<Text>)
    ensures Denial(root, u, caller).None? <==> OpenTo(root, u, caller)
    ensures Denial(root, u, caller) == Some(InternalError) <==> NameOf(MarkerFile(u)) in root && !root[NameOf(MarkerFile(u))].Marker?
    ensures Denial(root, u, caller).Some? ==> Denial(root, u, caller).value in {AccessDenied, InternalError}
  {
  }

  /** A list of parts an upload can be completed with. */
  ghost predicate Ready(root: map<Text, Content>, u: Text, parts: seq<Option<PartNumber>>) {
    && (forall i | 0 <= i < |parts| :: parts[i].Some? && parts[i].value >= 1 && HasPart(root, u, parts[i].value))
    && (forall i, j | 0 <= i < j < |parts| :: parts[i].Some? && parts[j].Some? && parts[i].value < parts[j].value)
    && (forall i | 0 <= i < |parts| - 1 :: |BodyOf(root, u, Number(parts[i]))| >= 5_242_880)
  }

  lemma BeginningSparesParts(root: map<Text, Content>, place: Place, u: Text, parts: seq<Option<PartNumber>>)
    requires IsUuid(u)
    ensures forall n: nat :: HasPart(Begun(root, place, u), u, n) == HasPart(root, u, n)
    ensures forall n: nat :: BodyOf(Begun(root, place, u), u, n) == BodyOf(root, u, n)
    ensures Ready(Begun(root, place, u), u, parts) == Ready(root, u, parts)
    ensures Bodies(Begun(root, place, u), u, parts) == Bodies(root, u, parts)
  {
    forall n: nat
      ensures HasPart(Begun(root, place, u), u, n) == HasPart(root, u, n)
      ensures BodyOf(Begun(root, place, u), u, n) == BodyOf(root, u, n)
    {
      BeginningSparesOthers(root, place, u, PartFile(u, n));
    }
  }

  lemma {:induction false} NoProblemAscends(root: map<Text, Content>, u: Text, parts: seq<Option<PartNumber>>, i: nat, j: nat)
    requires forall k | 0 <= k < |parts| :: Problem(root, u, parts, k).None?
    requires i < j < |parts|
    ensures parts[i].Some? && parts[j].Some? && 1 <= parts[i].value < parts[j].value
    decreases j
  {
    NoProblemIsPositive(root, u, parts, i);
    NoProblemIsPositive(root, u, parts, j - 1);
    assert Problem(root, u, parts, j).None?;
    if i < j - 1 {
      NoProblemAscends(root, u, parts, i, j - 1);
    }
  }

  lemma NoProblemIsPositive(root: map<Text, Content>, u: Text, parts: seq<Option<PartNumber>>, i: nat)
    requires i < |parts| && Problem(root, u, parts, i).None?
    ensures parts[i].Some? && parts[i].value > LastNumber(parts, i) && HasPart(root, u, parts[i].value)
  {
  }

  lemma NothingWrongIsReady(root: map<Text, Content>, u: Text, parts: seq<Option<PartNumber>>)
    requires forall k | 0 <= k < |parts| :: Problem(root, u, parts, k).None?
    ensures Ready(root, u, parts)
  {
    forall i, j | 0 <= i < j < |parts| ensures parts[i].Some? && parts[j].Some? && parts[i].value < parts[j].value {
      NoProblemAscends(root, u, parts, i, j);
    }
    forall i | 0 <= i < |parts| ensures parts[i].Some? && parts[i].value >= 1 && HasPart(root, u, parts[i].value) {
      NoProblemIsPositive(root, u, parts, i);
    }
    forall i | 0 <= i < |parts| - 1 ensures |BodyOf(root, u, Number(parts[i]))| >= 5_242_880 {
      NoProblemIsPositive(root, u, parts, i);
    }
  }

  lemma NothingWrongIffReady(root: map<Text, Content>, u: Text, parts: seq<Option<PartNumber>>)
    ensures Consumed(root, u, parts, 0) == |parts| <==> Ready(root, u, parts)
  {
    var n := Consumed(root, u, parts, 0);
    if n == |parts| {
      NothingWrongIsReady(root, u, parts);
    }
  }

  /** A completion succeeds exactly for the owner of an open session and a list of parts that is ready. */
  lemma CompletionSucceedsIffReady(s: State, md5: Text -> Text, place: Place, upload: Option<Text>, caller: Option<Text>, list: Option<seq<Option<PartNumber>>>)
    requires upload.Some? ==> IsUuid(upload.value)
    ensures Complete(s, md5, place, upload, caller, list).1.Done?
      <==> upload.Some? && list.Some? && OpenTo(s.root, upload.value, caller) && Ready(s.root, upload.value, list.value)
  {
    if upload.Some? && list.Some? {
      BeginningSparesParts(s.root, place, upload.value, list.value);
      NothingWrongIffReady(Begun(s.root, place, upload.value), upload.value, list.value);
    }
  }

  /** An ETag of a multipart upload: the hash of the part hashes end to end, in lower-case hexadecimal, a dash, and how many parts there are, in decimal. */
  ghost predicate IsCompositeEtag(md5: Text -> Text, bodies: seq<Text>, etag: Text) {
    exists digests: seq<Text>, head: Text, count: Text ::
      && |digests| == |bodies| && (forall i | 0 <= i < |bodies| :: digests[i] == md5(bodies[i]))
      && etag == head + ['-' as int as Byte] + count && DASH !in head && DASH !in count
      && SpellsHex(head, md5(Concat(digests)))
      && IsDigits(count) && DigitsValue(count) == |bodies| && count != [] && (|count| > 1 ==> count[0] as int != '0' as int)
  }

  lemma CompositeEtagIsComposite(md5: Text -> Text, bodies: seq<Text>)
    ensures IsCompositeEtag(md5, bodies, CompositeEtag(md5, bodies))
  {
    var digests := Digests(md5, bodies);
    var head, count := Hex(md5(Concat(digests))), Decimal(|bodies|);
    HexSpells(md5(Concat(digests)));
    HexHasNoDash(md5(Concat(digests)));
    DecimalIsNumeral(|bodies|);
    assert CompositeEtag(md5, bodies) == head + [DASH] + count;
  }

  /** Success: the parts as they were uploaded, end to end, under the composite ETag that was answered and stored, with the attributes the session was opened with. */
  lemma CompletedObject(s: State, md5: Text -> Text, place: Place, u: Text, caller: Option<Text>, parts: seq<Option<PartNumber>>)
    requires IsUuid(u)
    requires Complete(s, md5, place, Some(u), caller, Some(parts)).1.Done?
    ensures var (s', outcome) := Complete(s, md5, place, Some(u), caller, Some(parts));
      && s'.objects == s.objects[place := Concat(Bodies(s.root, u, parts))]
      && outcome.answer == CompositeEtag(md5, Bodies(s.root, u, parts))
      && IsCompositeEtag(md5, Bodies(s.root, u, parts), outcome.answer)
      && NameOf(InfoOf(place)) in s'.root && s'.root[NameOf(InfoOf(place))] == Info(outcome.answer)
  {
    BeginningSparesParts(s.root, place, u, parts);
    CompositeEtagIsComposite(md5, Bodies(s.root, u, parts));
  }

  /** The attributes of a session that is completed in its own place become the object's, and the session's sidecar goes. */
  lemma CompletionMovesAttributes(s: State, md5: Text -> Text, place: Place, u: Text, caller: Option<Text>, parts: seq<Option<PartNumber>>)
    requires IsUuid(u) && Denial(s.root, u, caller).None?
    requires NameOf(Sidecar(place, Some(u))) in s.root && s.root[NameOf(Sidecar(place, Some(u)))].Attributes?
    ensures var after := Complete(s, md5, place, Some(u), caller, Some(parts)).0.root;
      && NameOf(Sidecar(place, None)) in after && after[NameOf(Sidecar(place, None))] == s.root[NameOf(Sidecar(place, Some(u)))]
      && NameOf(Sidecar(place, Some(u))) !in after
  {
    var from, to, info := Sidecar(place, Some(u)), Sidecar(place, None), InfoOf(place);
    OtherName(from, to);
    OtherName(from, MarkerFile(u));
    OtherName(to, info);
    OtherName(from, info);
    var n := Consumed(Begun(s.root, place, u), u, parts, 0);
    PartNamesAreParts(u, parts[..n], to);
  }

  /** Part `k` may follow the parts listed before it: a positive number above theirs, uploaded, and 5 MiB or the last. */
  ghost predicate IsRight(root: map<Text, Content>, u: Text, parts: seq<Option<PartNumber>>, k: nat)
    requires k < |parts|
  {
    && parts[k].Some? && parts[k].value >= 1
    && (forall i | 0 <= i < k :: parts[i].Some? && parts[i].value < parts[k].value)
    && HasPart(root, u, parts[k].value)
    && (k == |parts| - 1 || |BodyOf(root, u, parts[k].value)| >= 5_242_880)
  }

  /** The error that tells what is wrong with part `k`. */
  ghost predicate Explains(root: map<Text, Content>, u: Text, parts: seq<Option<PartNumber>>, k: nat, error: Error)
    requires k < |parts|
  {
    match error
    case InvalidRequest => parts[k].None?
    case InvalidPartOrder => parts[k].Some? && (parts[k].value < 1 || exists i :: 0 <= i < k && parts[i].Some? && parts[k].value <= parts[i].value)
    case InternalError => parts[k].Some? && parts[k].value >= 1 && !HasPart(root, u, parts[k].value)
    case EntityTooSmall => parts[k].Some? && parts[k].value >= 1 && k != |parts| - 1 && |BodyOf(root, u, parts[k].value)| < 5_242_880
    case _ => false
  }

  lemma RightMeansNoProblem(root: map<Text, Content>, u: Text, parts: seq<Option<PartNumber>>, k: nat)
    requires k < |parts| && forall i | 0 <= i < k :: IsRight(root, u, parts, i)
    ensures IsRight(root, u, parts, k) <==> Problem(root, u, parts, k).None?
    ensures Problem(root, u, parts, k).Some? ==> Explains(root, u, parts, k, Problem(root, u, parts, k).value)
  {
    if k > 0 {
      assert IsRight(root, u, parts, k - 1);
      assert forall i | 0 <= i < k - 1 :: parts[i].value < parts[k - 1].value;
    }
  }

  lemma RightPartsAreConsumed(root: map<Text, Content>, place: Place, u: Text, parts: seq<Option<PartNumber>>, k: nat)
    requires IsUuid(u) && k <= |parts|
    requires (forall i | 0 <= i < k :: IsRight(root, u, parts, i)) && (k < |parts| ==> !IsRight(root, u, parts, k))
    ensures Consumed(Begun(root, place, u), u, parts, 0) == k
    ensures k < |parts| ==> Problem(Begun(root, place, u), u, parts, k).Some? && Explains(root, u, parts, k, Problem(Begun(root, place, u), u, parts, k).value)
  {
    var begun := Begun(root, place, u);
    BeginningSparesParts(root, place, u, parts);
    forall i | 0 <= i < |parts| ensures Problem(begun, u, parts, i) == Problem(root, u, parts, i) {
    }
    forall i | 0 <= i < k ensures Problem(begun, u, parts, i).None? {
      RightMeansNoProblem(root, u, parts, i);
      assert IsRight(root, u, parts, i);
    }
    if k < |parts| {
      RightMeansNoProblem(root, u, parts, k);
    }
  }

  /** An admitted completion takes the parts in their order up to the first that is not right, and says what is wrong with that one. */
  lemma CompletionStopsAt(s: State, md5: Text -> Text, place: Place, u: Text, caller: Option<Text>, parts: seq<Option<PartNumber>>, k: nat)
    requires IsUuid(u) && Denial(s.root, u, caller).None? && k <= |parts|
    requires (forall i | 0 <= i < k :: IsRight(s.root, u, parts, i)) && (k < |parts| ==> !IsRight(s.root, u, parts, k))
    ensures var outcome := Complete(s, md5, place, Some(u), caller, Some(parts)).1;
      && (k == |parts| ==> outcome.Done?)
      && (k < |parts| ==> outcome.Failed? && Explains(s.root, u, parts, k, outcome.error))
  {
    RightPartsAreConsumed(s.root, place, u, parts, k);
  }

  /** Just the files of the parts before that one are gone. */
  lemma CompletionConsumes(s: State, md5: Text -> Text, place: Place, u: Text, caller: Option<Text>, parts: seq<Option<PartNumber>>, k: nat, n: nat)
    requires IsUuid(u) && Denial(s.root, u, caller).None? && k <= |parts|
    requires (forall i | 0 <= i < k :: IsRight(s.root, u, parts, i)) && (k < |parts| ==> !IsRight(s.root, u, parts, k))
    ensures var after := Complete(s, md5, place, Some(u), caller, Some(parts)).0.root;
      if exists i :: 0 <= i < k && parts[i] == Some(n) then NameOf(PartFile(u, n)) !in after else SameAt(s.root, after, PartFile(u, n))
  {
    var id := PartFile(u, n);
    RightPartsAreConsumed(s.root, place, u, parts, k);
    BeginningSparesOthers(s.root, place, u, id);
    OtherName(id, InfoOf(place));
    PartNamesAreParts(u, parts[..k], id);
    ListedIsNamed(s.root, u, parts, k, n);
  }

  lemma ListedIsNamed(root: map<Text, Content>, u: Text, parts: seq<Option<PartNumber>>, k: nat, n: nat)
    requires k <= |parts| && forall i | 0 <= i < k :: IsRight(root, u, parts, i)
    ensures (exists p | p in parts[..k] :: Number(p) == n) <==> exists i :: 0 <= i < k && parts[i] == Some(n)
  {
    if p :| p in parts[..k] && Number(p) == n {
      var i :| 0 <= i < k && parts[i] == p;
      assert IsRight(root, u, parts, i);
    }
    if i :| 0 <= i < k && parts[i] == Some(n) {
      assert parts[..k][i] == parts[i] && Number(parts[i]) == n;
      assert parts[i] in parts[..k];
    }
  }

  /** A part is accepted exactly from the owner of an open session, with a body, under a number from 1 to 10000; it is answered with the hash of its bytes. */
  lemma UploadAcceptedIff(s: State, md5: Text -> Text, upload: Option<Text>, caller: Option<Text>, number: PartNumber, chunks: Option<seq<Text>>)
    ensures var (s', outcome) := UploadPart(s, md5, upload, caller, number, chunks);
      && (outcome.Done? <==> 1 <= number <= 10_000 && chunks.Some? && upload.Some? && OpenTo(s.root, upload.value, caller))
      && (outcome.Done? ==> SpellsHex(outcome.answer, md5(Concat(chunks.value))))
      && (outcome.Failed? ==> s' == s)
      && s'.objects == s.objects
  {
    if chunks.Some? {
      HexSpells(md5(Concat(chunks.value)));
    }
  }

  /** Failure, for whatever reason: every object, and every ETag stored for one, is as it was. */
  lemma FailedCompletionKeepsObjects(s: State, md5: Text -> Text, r: Request, place: Place)
    requires r.Valid() && r.CompleteRequest? && Apply(s, md5, r).1.Failed?
    ensures Apply(s, md5, r).0.objects == s.objects
    ensures SameAt(s.root, Apply(s, md5, r).0.root, InfoOf(place))
  {
    if r.upload.Some? && r.list.Some? && Denial(s.root, r.upload.value, r.caller).None? {
      var u := r.upload.value;
      var root := Begun(s.root, r.place, u);
      BeginningSparesOthers(s.root, r.place, u, InfoOf(place));
      PartNamesAreParts(u, r.list.value[..Consumed(root, u, r.list.value, 0)], InfoOf(place));
    }
  }

  /** Once a completion was admitted, the session is over: every later request for it is denied. */
  lemma AdmittedCompletionEndsSession(s: State, md5: Text -> Text, place: Place, u: Text, caller: Option<Text>, parts: seq<Option<PartNumber>>, anyone: Option<Text>)
    requires IsUuid(u) && Denial(s.root, u, caller).None?
    ensures Denial(Complete(s, md5, place, Some(u), caller, Some(parts)).0.root, u, anyone) == Some(AccessDenied)
  {
    OtherName(MarkerFile(u), Sidecar(place, None));
    OtherName(MarkerFile(u), InfoOf(place));
  }

  /** The dash by which the server tells a composite ETag from a whole-object digest. */
  lemma DashTellsComposite(md5: Text -> Text, bodies: seq<Text>, body: Text)
    ensures DASH in CompositeEtag(md5, bodies)
    ensures DASH !in Hex(md5(body))
  {
    HexHasNoDash(md5(body));
    var digest := Hex(md5(Concat(Digests(md5, bodies))));
    assert CompositeEtag(md5, bodies)[|digest|] == DASH;
  }
}
