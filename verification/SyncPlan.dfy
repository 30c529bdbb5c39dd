/** Which source objects a sync copies, and under which key. */
module SyncPlan {
  import opened Bytes
  import opened Hashing

  type I64 = n: int | -0x8000_0000_0000_0000 <= n <= 0x7FFF_FFFF_FFFF_FFFF

  const I64_MIN: I64 := -0x8000_0000_0000_0000
  const I64_MAX: I64 := 0x7FFF_FFFF_FFFF_FFFF

  datatype Mode = NewAndChanged | SkipExisting | OverwriteAll

  datatype Source = Source(key: Text, size: nat, etag: Option<Text>, modified: Option<I64>)

  datatype Local = Local(size: nat, modified: I64, etag: Option<Text>)

  datatype CopyReason = Missing | SizeDiffers | SourceNewer | EtagDiffers | NoTimestamp | Forced

  datatype SkipReason = Exists | EtagMatches | UpToDate

  datatype Decision = Copy(because: CopyReason) | Skip(since: SkipReason)

  function SaturatingAdd(a: I64, b: I64): I64 {
    if a + b < I64_MIN then I64_MIN else if a + b > I64_MAX then I64_MAX else a + b
  }

  // ---- ETags ----

  predicate IsSpace(c: Byte) {
    c == 32 || 9 <= c <= 13
  }

  predicate IsQuote(c: Byte) {
    c == 34
  }

  function TrimEnd(s: Text, strip: Byte -> bool): Text {
    if s != [] && strip(s[|s| - 1]) then TrimEnd(s[..|s| - 1], strip) else s
  }

  function Trim(s: Text, strip: Byte -> bool): Text {
    TrimEnd(TrimStart(s, strip), strip)
  }

  function NormalizeEtag(etag: Text): Text {
    Trim(Trim(etag, IsSpace), IsQuote)
  }

  predicate IsHexDigit(c: Byte) {
    48 <= c <= 57 || 97 <= c <= 102 || 65 <= c <= 70
  }

  /** A whole-object MD5, not the `<md5>-<parts>` of a multipart upload. */
  predicate IsPlainMd5(etag: Text) {
    var e := NormalizeEtag(etag);
    |e| == 32 && forall i | 0 <= i < |e| :: IsHexDigit(e[i])
  }

  function ToLower(c: Byte): Byte {
    if 65 <= c <= 90 then c + 32 else c
  }

  predicate EqualIgnoringCase(a: Text, b: Text) {
    |a| == |b| && forall i | 0 <= i < |a| :: ToLower(a[i]) == ToLower(b[i])
  }

  function Decide(mode: Mode, src: Source, local: Option<Local>, skew: I64): Decision {
    if mode == OverwriteAll then Copy(Forced)
    else if local.None? then Copy(Missing)
    else if mode == SkipExisting then Skip(Exists)
    else if local.value.size != src.size then Copy(SizeDiffers)
    else if src.etag.Some? && local.value.etag.Some? && IsPlainMd5(src.etag.value) then
      if EqualIgnoringCase(NormalizeEtag(src.etag.value), NormalizeEtag(local.value.etag.value)) then Skip(EtagMatches) else Copy(EtagDiffers)
    else if src.modified.None? then Copy(NoTimestamp)
    else if SaturatingAdd(local.value.modified, skew) >= src.modified.value then Skip(UpToDate)
    else Copy(SourceNewer)
  }

  // ---- What the rule promises ----

  ghost predicate IsAll(s: Text, p: Byte -> bool) {
    forall i | 0 <= i < |s| :: p(s[i])
  }

  lemma {:induction false} TrimStartStrips(pad: Text, s: Text, strip: Byte -> bool)
    requires IsAll(pad, strip) && (s == [] || !strip(s[0]))
    ensures TrimStart(pad + s, strip) == s
  {
    if pad == [] {
      assert pad + s == s;
    } else {
      assert (pad + s)[0] == pad[0] && (pad + s)[1..] == pad[1..] + s;
      assert IsAll(pad[1..], strip);
      TrimStartStrips(pad[1..], s, strip);
    }
  }

  lemma {:induction false} TrimEndStrips(s: Text, pad: Text, strip: Byte -> bool)
    requires IsAll(pad, strip) && (s == [] || !strip(s[|s| - 1]))
    ensures TrimEnd(s + pad, strip) == s
  {
    if pad == [] {
      assert s + pad == s;
    } else {
      var last := |pad| - 1;
      assert (s + pad)[|s + pad| - 1] == pad[last] && (s + pad)[..|s + pad| - 1] == s + pad[..last];
      assert IsAll(pad[..last], strip);
      TrimEndStrips(s, pad[..last], strip);
    }
  }

  lemma TrimStrips(front: Text, s: Text, back: Text, strip: Byte -> bool)
    requires IsAll(front, strip) && IsAll(back, strip)
    requires s != [] && !strip(s[0]) && !strip(s[|s| - 1])
    ensures Trim(front + s + back, strip) == s
  {
    assert front + s + back == front + (s + back);
    TrimStartStrips(front, s + back, strip);
    TrimEndStrips(s, back, strip);
  }

  /** Whatever blanks and quotes surround a digest, it is read as the same digest. */
  lemma QuotingDoesNotMatter(blank: Text, quotes: Text, digest: Text, quotes': Text, blank': Text)
    requires IsAll(blank, IsSpace) && IsAll(blank', IsSpace) && IsAll(quotes, IsQuote) && IsAll(quotes', IsQuote)
    requires digest != [] && IsAll(digest, IsHexDigit)
    ensures NormalizeEtag(blank + (quotes + digest + quotes') + blank') == digest
  {
    var quoted := quotes + digest + quotes';
    assert !IsSpace(quoted[0]) && !IsSpace(quoted[|quoted| - 1]);
    TrimStrips(blank, quoted, blank', IsSpace);
    TrimStrips(quotes, digest, quotes', IsQuote);
  }

  lemma {:induction false} TrimStartKeeps(s: Text, strip: Byte -> bool, c: Byte)
    requires !strip(c)
    ensures c in s <==> c in TrimStart(s, strip)
  {
    if s != [] && strip(s[0]) {
      assert s == [s[0]] + s[1..];
      TrimStartKeeps(s[1..], strip, c);
    }
  }

  lemma {:induction false} TrimEndKeeps(s: Text, strip: Byte -> bool, c: Byte)
    requires !strip(c)
    ensures c in s <==> c in TrimEnd(s, strip)
  {
    if s != [] && strip(s[|s| - 1]) {
      assert s == s[..|s| - 1] + [s[|s| - 1]];
      TrimEndKeeps(s[..|s| - 1], strip, c);
    }
  }

  /** An ETag with a dash in it, as every multipart upload has, never counts as a whole-object digest. */
  lemma CompositeIsNotPlain(etag: Text)
    requires DASH in etag
    ensures !IsPlainMd5(etag)
  {
    var spaced := TrimStart(etag, IsSpace);
    TrimStartKeeps(etag, IsSpace, DASH);
    TrimEndKeeps(spaced, IsSpace, DASH);
    var trimmed := Trim(etag, IsSpace);
    TrimStartKeeps(trimmed, IsQuote, DASH);
    TrimEndKeeps(TrimStart(trimmed, IsQuote), IsQuote, DASH);
    assert DASH in NormalizeEtag(etag);
  }

  /** An ETag counts as a whole-object digest exactly when, within blanks and quotes, it is 32 hexadecimal digits. */
  lemma PlainIff(blank: Text, quotes: Text, inner: Text, quotes': Text, blank': Text)
    requires forall c | c in blank + blank' :: c as int in {' ' as int, '\t' as int, '\n' as int, '\r' as int, 11, 12}
    requires forall c | c in quotes + quotes' :: c as int == '\"' as int
    requires inner != [] && inner[0] as int !in {' ' as int, '\t' as int, '\n' as int, '\r' as int, 11, 12, '\"' as int}
    requires inner[|inner| - 1] as int !in {' ' as int, '\t' as int, '\n' as int, '\r' as int, 11, 12, '\"' as int}
    ensures IsPlainMd5(blank + (quotes + inner + quotes') + blank') <==>
      |inner| == 32 && forall i | 0 <= i < 32 :: '0' as int <= inner[i] as int <= '9' as int || 'a' as int <= inner[i] as int <= 'f' as int || 'A' as int <= inner[i] as int <= 'F' as int
  {
    var quoted := quotes + inner + quotes';
    assert forall i | 0 <= i < |blank| :: blank[i] in blank + blank';
    assert forall i | 0 <= i < |blank'| :: blank'[i] in blank + blank';
    assert forall i | 0 <= i < |quotes| :: quotes[i] in quotes + quotes';
    assert forall i | 0 <= i < |quotes'| :: quotes'[i] in quotes + quotes';
    assert !IsSpace(quoted[0]) && !IsSpace(quoted[|quoted| - 1]);
    TrimStrips(blank, quoted, blank', IsSpace);
    TrimStrips(quotes, inner, quotes', IsQuote);
  }

  lemma {:induction false} HexIsLower(s: Text)
    ensures forall i | 0 <= i < |Hex(s)| :: ToLower(Hex(s)[i]) == Hex(s)[i]
  {
    if s != [] {
      HexIsLower(s[1..]);
    }
  }

  /** Digests in hexadecimal are told apart whatever the case of their letters. */
  lemma HexIgnoringCase(a: Text, b: Text)
    ensures EqualIgnoringCase(Hex(a), Hex(b)) <==> a == b
  {
    HexIsLower(a);
    HexIsLower(b);
    if EqualIgnoringCase(Hex(a), Hex(b)) {
      assert Hex(a) == Hex(b);
      HexIsInjective(a, b);
    }
  }

  /** Capital letters match small ones, and nothing else matches but itself. */
  lemma CaseFolds(c: Byte, d: Byte)
    ensures ToLower(c) == ToLower(d) <==>
      c == d || ('A' as int <= c as int <= 'Z' as int && d as int == c as int + 32) || ('A' as int <= d as int <= 'Z' as int && c as int == d as int + 32)
  {
  }

  /** So a composite ETag never decides: the outcome is the one without ETags. */
  lemma CompositeEtagFallsThrough(mode: Mode, src: Source, local: Option<Local>, skew: I64)
    requires src.etag.Some? && DASH in src.etag.value
    ensures Decide(mode, src, local, skew) == Decide(mode, src.(etag := None), local, skew)
  {
    CompositeIsNotPlain(src.etag.value);
  }

  /**
   * In the default mode an object is left alone exactly when we hold one of the same size that either has the same
   * digest, where digests decide, or is at least as new. Saturation only matters for the least representable time.
   */
  lemma NewAndChangedSkipsIff(src: Source, local: Option<Local>, skew: I64)
    ensures Decide(NewAndChanged, src, local, skew).Skip? <==>
      && local.Some? && local.value.size == src.size
      && var digests := src.etag.Some? && local.value.etag.Some? && IsPlainMd5(src.etag.value);
      && (digests ==> EqualIgnoringCase(NormalizeEtag(src.etag.value), NormalizeEtag(local.value.etag.value)))
      && (!digests ==> src.modified.Some? && (local.value.modified + skew >= src.modified.value || src.modified.value == I64_MIN))
  {
  }

  /** The other two modes: copy what is missing and nothing else, or copy everything. */
  lemma OtherModesSkipIff(src: Source, local: Option<Local>, skew: I64)
    ensures Decide(SkipExisting, src, local, skew).Skip? <==> local.Some?
    ensures Decide(OverwriteAll, src, local, skew).Copy?
  {
  }

  /** The reason that is shown: what is missing, of another size, or of another digest is said to be so, in that order. */
  lemma ReasonsTell(src: Source, local: Option<Local>, skew: I64)
    ensures var d := Decide(NewAndChanged, src, local, skew);
      && (d == Copy(Missing) <==> local.None?)
      && (d == Copy(SizeDiffers) <==> local.Some? && local.value.size != src.size)
      && (d == Copy(EtagDiffers) ==> local.Some? && local.value.etag.Some? && src.etag.Some? && IsPlainMd5(src.etag.value))
      && (d == Copy(NoTimestamp) ==> src.modified.None?)
      && (d == Copy(SourceNewer) ==> local.Some? && src.modified.Some? && local.value.modified + skew < src.modified.value)
    ensures Decide(SkipExisting, src, local, skew).Copy? ==> Decide(SkipExisting, src, local, skew) == Copy(Missing)
    ensures Decide(OverwriteAll, src, local, skew) == Copy(Forced)
  {
  }

  /** More allowance for clock skew, or a later local copy, never makes the rule copy more. */
  lemma LaterNeverCopiesMore(mode: Mode, src: Source, local: Local, skew: I64, local': Local, skew': I64)
    requires local'.size == local.size && local'.etag == local.etag
    requires local.modified <= local'.modified && skew <= skew'
    ensures Decide(mode, src, Some(local'), skew').Copy? ==> Decide(mode, src, Some(local), skew) == Decide(mode, src, Some(local'), skew')
  {
  }

  // ---- Keys ----

  const DOTDOT: Text := [DOT, DOT]

  predicate IsDots(part: Text) {
    part == DOTDOT || part == [DOT]
  }

  function Relative(key: Text, srcPrefix: Text): Text {
    if srcPrefix <= key then key[|srcPrefix|..] else key
  }

  predicate HasDots(path: Text) {
    exists i :: 0 <= i < |Split(path, SLASH)| && IsDots(Split(path, SLASH)[i])
  }

  function RemapKey(key: Text, srcPrefix: Text, dstPrefix: Text): Option<Text> {
    var relative := Relative(key, srcPrefix);
    if relative == [] || relative[0] == SLASH then None
    else if HasDots(relative) then None
    else Some(dstPrefix + relative)
  }

  function TrimSlashes(prefix: Text): Text {
    TrimStart(prefix, c => c == SLASH)
  }

  function NormalizePrefix(prefix: Text): Text {
    var p := TrimSlashes(prefix);
    if p == [] || p[|p| - 1] == SLASH then p else p + [SLASH]
  }

  /** A destination prefix: empty, or ending in a slash without beginning with one. */
  predicate IsPrefix(p: Text) {
    p == [] || (p[|p| - 1] == SLASH && p[0] != SLASH)
  }

  lemma {:induction false} TrimSlashesTrims(prefix: Text)
    ensures TrimSlashes(prefix) == [] || TrimSlashes(prefix)[0] != SLASH
    ensures TrimSlashes(TrimSlashes(prefix)) == TrimSlashes(prefix)
  {
    if prefix != [] && prefix[0] == SLASH {
      TrimSlashesTrims(prefix[1..]);
    }
  }

  /** Prefixes are brought into shape, and those in shape are left alone. */
  lemma NormalizedPrefix(prefix: Text)
    ensures IsPrefix(NormalizePrefix(prefix))
    ensures IsPrefix(prefix) ==> NormalizePrefix(prefix) == prefix
  {
    TrimSlashesTrims(prefix);
  }

  /** Keys the source listed under its prefix go to different places. */
  lemma RemapIsInjective(a: Text, b: Text, srcPrefix: Text, dstPrefix: Text)
    requires srcPrefix <= a && srcPrefix <= b
    requires RemapKey(a, srcPrefix, dstPrefix).Some? && RemapKey(a, srcPrefix, dstPrefix) == RemapKey(b, srcPrefix, dstPrefix)
    ensures a == b
  {
    var n := |srcPrefix|;
    assert (dstPrefix + a[n..])[|dstPrefix|..] == a[n..];
    assert (dstPrefix + b[n..])[|dstPrefix|..] == b[n..];
    assert a == srcPrefix + a[n..] && b == srcPrefix + b[n..];
  }

  /** A key outside the prefix is kept whole, so it meets the key that has the prefix in front of it, and no other. */
  lemma RemapCollidesIff(a: Text, b: Text, srcPrefix: Text, dstPrefix: Text)
    requires RemapKey(a, srcPrefix, dstPrefix).Some? && RemapKey(b, srcPrefix, dstPrefix).Some?
    ensures RemapKey(a, srcPrefix, dstPrefix) == RemapKey(b, srcPrefix, dstPrefix)
      <==> a == b || (a == srcPrefix + b && !(srcPrefix <= b)) || (b == srcPrefix + a && !(srcPrefix <= a))
  {
    var ra, rb := Relative(a, srcPrefix), Relative(b, srcPrefix);
    assert (dstPrefix + ra)[|dstPrefix|..] == ra && (dstPrefix + rb)[|dstPrefix|..] == rb;
    assert srcPrefix <= a ==> a == srcPrefix + ra;
    assert srcPrefix <= b ==> b == srcPrefix + rb;
    assert (srcPrefix + a)[|srcPrefix|..] == a && (srcPrefix + b)[|srcPrefix|..] == b;
  }

  /** The parts of a path below a directory are the directory's parts and those of the rest. */
  lemma SplitAfterSlash(front: Text, back: Text)
    requires front != [] && front[|front| - 1] == SLASH
    ensures var parts := Split(front, SLASH);
      Split(front + back, SLASH) == parts[..|parts| - 1] + Split(back, SLASH)
  {
    var dir := front[..|front| - 1];
    assert front == dir + [SLASH];
    SplitConcat(dir, [SLASH], SLASH);
    assert Split([SLASH], SLASH) == [[], []];
    SplitConcat(front, back, SLASH);
    assert [] + Split(back, SLASH)[0] == Split(back, SLASH)[0];
  }

  /**
   * A key under the source prefix goes to the destination prefix and what is left of it, unless that is empty, begins
   * with a slash or has a part `.` or `..`; then it is refused.
   */
  lemma RemapRebases(srcPrefix: Text, relative: Text, dstPrefix: Text)
    ensures RemapKey(srcPrefix + relative, srcPrefix, dstPrefix) ==
      if relative == [] || relative[0] == SLASH || [DOT] in Split(relative, SLASH) || [DOT, DOT] in Split(relative, SLASH) then None
      else Some(dstPrefix + relative)
  {
    assert (srcPrefix + relative)[|srcPrefix|..] == relative;
    assert HasDots(relative) <==> [DOT] in Split(relative, SLASH) || [DOT, DOT] in Split(relative, SLASH);
  }

  /** A destination key climbs nowhere unless its prefix already does. */
  lemma RemappedKeyStaysBelow(key: Text, srcPrefix: Text, dstPrefix: Text)
    requires IsPrefix(dstPrefix) && !HasDots(dstPrefix)
    requires RemapKey(key, srcPrefix, dstPrefix).Some?
    ensures var dst := RemapKey(key, srcPrefix, dstPrefix).value;
      dstPrefix <= dst && |dstPrefix| < |dst| && dst[0] != SLASH && !HasDots(dst)
  {
    var relative := Relative(key, srcPrefix);
    var dst := dstPrefix + relative;
    if dstPrefix == [] {
      assert dst == relative;
    } else {
      SplitAfterSlash(dstPrefix, relative);
      var front, back := Split(dstPrefix, SLASH), Split(relative, SLASH);
      forall i | 0 <= i < |Split(dst, SLASH)| ensures !IsDots(Split(dst, SLASH)[i]) {
        if i < |front| - 1 {
          assert Split(dst, SLASH)[i] == front[i];
        } else {
          assert Split(dst, SLASH)[i] == back[i - (|front| - 1)];
        }
      }
    }
  }
}
