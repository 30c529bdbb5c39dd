/** One page of a listing, and what a client that follows the tokens gets to see. */
module Listing {
  import opened Bytes
  import opened KeySets
  import opened Tree
  import opened ListingPages
  import opened Walk
  import opened Delimiters

  const MAX_LIST_KEYS: int := 1000

  datatype Request = Request(
    prefix: Option<Text>, delimiter: Option<Text>, maxKeys: Option<int>,
    continuationToken: Option<Text>, startAfter: Option<Text>)
  {
    /** An empty delimiter means none; leading slashes of the prefix do not count. */
    function Scope(): Walk.Scope {
      Walk.Scope(
        TrimStart(if prefix.Some? then prefix.value else [], c => c == SLASH),
        if delimiter.Some? && delimiter.value != [] then delimiter else None)
    }

    function PageSize(): nat {
      var asked := if maxKeys.Some? then maxKeys.value else MAX_LIST_KEYS;
      if asked < 0 then 0 else if asked > MAX_LIST_KEYS then MAX_LIST_KEYS else asked
    }

    function ResumeAfter(): Option<Text> {
      if continuationToken.Some? then continuationToken else startAfter
    }
  }

  datatype Response =
    | Page(keyCount: nat, maxKeys: nat, isTruncated: bool, contents: seq<Object>, commonPrefixes: seq<Text>, nextToken: Option<Text>)
    | NoSuchBucket

  function Keys(objs: seq<Object>): (keys: seq<Text>)
    ensures |keys| == |objs| && forall i | 0 <= i < |objs| :: keys[i] == objs[i].key
  {
    seq(|objs|, i requires 0 <= i < |objs| => objs[i].key)
  }

  ghost function Entries(t: Bucket, scope: Scope): set<Text>
    requires scope.Valid()
  {
    ObjectKeys(t, scope) + PrefixKeys(t, scope)
  }

  /** "Sort every entry and cut": the keys of the page after `marker`. */
  ghost function CutAfter(less: Order, entries: set<Text>, marker: Option<Text>, n: nat): seq<Text>
    requires StrictOrder(less)
  {
    var rest := Sorted(less, After(less, entries, marker));
    rest[..Least(n, |rest|)]
  }

  /** `r` is the sorted cut of the union of `objects` and `prefixes`, each key in its own list. */
  ghost predicate IsCut(less: Order, objects: set<Text>, prefixes: set<Text>, marker: Option<Text>, n: nat, r: Response)
    requires StrictOrder(less)
  {
    var keys := CutAfter(less, objects + prefixes, marker, n);
    && r.Page?
    && r.maxKeys == n
    && r.keyCount == |keys|
    && Keys(r.contents) == Sorted(less, ToSet(keys) * objects)
    && r.commonPrefixes == Sorted(less, ToSet(keys) * prefixes)
    && (r.isTruncated <==> |After(less, objects + prefixes, marker)| > n)
    && r.nextToken == if r.isTruncated && keys != [] then Some(keys[|keys| - 1]) else None
  }

  /** The page a bucket answers with: the cut of its naive listing, each object as it is on disk. */
  ghost predicate IsPage(t: Bucket, scope: Scope, marker: Option<Text>, n: nat, r: Response)
    requires scope.Valid()
  {
    LessIsStrictOrder();
    && IsCut(Less, ObjectKeys(t, scope), PrefixKeys(t, scope), marker, n, r)
    && (forall o | o in r.contents :: PathOf(o.key) in t.files && o == ObjectAt(t, o.key))
  }

  // ---- The merge ----

  /** What has been emitted precedes what has not, whichever list either comes from. */
  ghost predicate Frontier(less: Order, objs: seq<Text>, pres: seq<Text>, i: nat, j: nat)
    requires i <= |objs| && j <= |pres|
  {
    && (i > 0 && j < |pres| ==> less(objs[i - 1], pres[j]))
    && (j > 0 && i < |objs| ==> less(pres[j - 1], objs[i]))
  }

  /** The last key emitted, and the largest so far. */
  ghost predicate IsLast(less: Order, objs: seq<Text>, pres: seq<Text>, i: nat, j: nat, last: Option<Text>)
    requires i <= |objs| && j <= |pres|
  {
    && (i + j == 0 ==> last.None?)
    && (i + j > 0 ==>
      && last.Some?
      && ((i > 0 && last.value == objs[i - 1]) || (j > 0 && last.value == pres[j - 1]))
      && (i > 0 ==> objs[i - 1] == last.value || less(objs[i - 1], last.value))
      && (j > 0 ==> pres[j - 1] == last.value || less(pres[j - 1], last.value)))
  }

  /** How far the merge is in either list, and the last key it emitted. */
  datatype Progress = Progress(i: nat, j: nat, last: Option<Text>)

  /** The merge after `n` rounds: the smaller key goes first, and of equal keys the prefix. */
  function MergedTo(less: Order, objs: seq<Text>, pres: seq<Text>, n: nat): (m: Progress)
    ensures m.i <= |objs| && m.j <= |pres|
  {
    if n == 0 then Progress(0, 0, None)
    else
      var m := MergedTo(less, objs, pres, n - 1);
      if m.i < |objs| && (m.j == |pres| || less(objs[m.i], pres[m.j])) then Progress(m.i + 1, m.j, Some(objs[m.i]))
      else if m.j < |pres| then Progress(m.i, m.j + 1, Some(pres[m.j]))
      else m
  }

  lemma {:induction false} MergedToTheEnd(less: Order, objs: seq<Text>, pres: seq<Text>, n: nat, more: nat)
    requires n <= more && MergedTo(less, objs, pres, n).i == |objs| && MergedTo(less, objs, pres, n).j == |pres|
    ensures MergedTo(less, objs, pres, more) == MergedTo(less, objs, pres, n)
  {
    if n < more {
      MergedToTheEnd(less, objs, pres, n, more - 1);
    }
  }

  /** The keys of one list that a page may show, and one more. */
  ghost function Lookahead(less: Order, keys: set<Text>, marker: Option<Text>, n: nat): seq<Text>
    requires StrictOrder(less)
  {
    Sorted(less, Smallest(less, After(less, keys, marker), n + 1))
  }

  /** The page as the merge makes it, also where an object and a prefix have the same key. */
  ghost predicate IsMergedPage(less: Order, objects: set<Text>, prefixes: set<Text>, marker: Option<Text>, n: nat, r: Response)
    requires StrictOrder(less)
  {
    var objs, pres := Lookahead(less, objects, marker, n), Lookahead(less, prefixes, marker, n);
    var m := MergedTo(less, objs, pres, n);
    && r.Page? && r.maxKeys == n && r.keyCount == m.i + m.j
    && Keys(r.contents) == objs[..m.i] && r.commonPrefixes == pres[..m.j]
    && (r.isTruncated <==> m.i < |objs| || m.j < |pres|)
    && r.nextToken == if r.isTruncated then m.last else None
  }

  /** No key is in both lists. */
  ghost predicate Apart(objs: seq<Object>, pres: seq<Text>) {
    forall a, b | 0 <= a < |objs| && 0 <= b < |pres| :: objs[a].key != pres[b]
  }

  method Merge(less: Order, objs: seq<Object>, pres: seq<Text>, maxKeys: nat)
    returns (i: nat, j: nat, last: Option<Text>)
    requires StrictOrder(less) && Ascending(less, Keys(objs)) && Ascending(less, pres)
    ensures i <= |objs| && j <= |pres| && i + j <= maxKeys
    ensures i + j < maxKeys ==> i == |objs| && j == |pres|
    ensures Progress(i, j, last) == MergedTo(less, Keys(objs), pres, maxKeys)
    ensures Apart(objs, pres) ==> Frontier(less, Keys(objs), pres, i, j)
    ensures Apart(objs, pres) ==> IsLast(less, Keys(objs), pres, i, j, last)
  {
    var totalCount := 0;
    i, j, last := 0, 0, None;
    while totalCount < maxKeys
      invariant i <= |objs| && j <= |pres| && totalCount == i + j <= maxKeys
      invariant Progress(i, j, last) == MergedTo(less, Keys(objs), pres, totalCount)
    {
      if i < |objs| && j < |pres| {
        if less(objs[i].key, pres[j]) {
          last, i := Some(objs[i].key), i + 1;
        } else {
          last, j := Some(pres[j]), j + 1;
        }
      } else if i < |objs| {
        last, i := Some(objs[i].key), i + 1;
      } else if j < |pres| {
        last, j := Some(pres[j]), j + 1;
      } else {
        MergedToTheEnd(less, Keys(objs), pres, totalCount, maxKeys);
        break;
      }
      totalCount := totalCount + 1;
    }
    if Apart(objs, pres) {
      MergedIsInOrder(less, Keys(objs), pres, maxKeys);
    }
  }

  /** Where no key is in both lists, what the merge emits comes before what it leaves. */
  lemma {:induction false} MergedIsInOrder(less: Order, objs: seq<Text>, pres: seq<Text>, n: nat)
    requires StrictOrder(less) && Ascending(less, objs) && Ascending(less, pres)
    requires forall a, b | 0 <= a < |objs| && 0 <= b < |pres| :: objs[a] != pres[b]
    ensures var m := MergedTo(less, objs, pres, n);
      Frontier(less, objs, pres, m.i, m.j) && IsLast(less, objs, pres, m.i, m.j, m.last)
  {
    if n > 0 {
      MergedIsInOrder(less, objs, pres, n - 1);
      MergedRound(less, objs, pres, n);
    }
  }

  lemma MergedRound(less: Order, objs: seq<Text>, pres: seq<Text>, n: nat)
    requires StrictOrder(less) && Ascending(less, objs) && Ascending(less, pres) && n > 0
    requires forall a, b | 0 <= a < |objs| && 0 <= b < |pres| :: objs[a] != pres[b]
    requires var m := MergedTo(less, objs, pres, n - 1);
      Frontier(less, objs, pres, m.i, m.j) && IsLast(less, objs, pres, m.i, m.j, m.last)
    ensures var m := MergedTo(less, objs, pres, n);
      Frontier(less, objs, pres, m.i, m.j) && IsLast(less, objs, pres, m.i, m.j, m.last)
  {
    assert Opened(0);
    var m := MergedTo(less, objs, pres, n - 1);
    if m.i < |objs| && m.j < |pres| {
      assert less(objs[m.i], pres[m.j]) || less(pres[m.j], objs[m.i]);
    }
  }

  /** With one entry of lookahead in each list, the merged entries are the smallest of the union. */
  lemma MergedAreSmallest(less: Order, heldO: set<Text>, heldP: set<Text>, o: set<Text>, p: set<Text>, n: nat, outO: set<Text>, outP: set<Text>)
    requires StrictOrder(less) && o !! p
    requires AreSmallest(less, heldO, o, n + 1) && AreSmallest(less, heldP, p, n + 1)
    requires outO <= heldO && outP <= heldP && |outO| + |outP| <= n
    requires |outO| + |outP| < n ==> outO == heldO && outP == heldP
    requires forall x, y {:trigger Precedes(less, x, y)} | x in outO + outP && y in (heldO - outO) + (heldP - outP) :: Precedes(less, x, y)
    ensures AreSmallest(less, outO + outP, o + p, n)
    ensures |o + p| > n <==> outO != heldO || outP != heldP
    ensures outO <= o && outP <= p && |outO + outP| == |outO| + |outP|
  {
    assert Opened(0);
    var out, ahead := outO + outP, (heldO - outO) + (heldP - outP);
    forall x, y | x in out && y in o + p && y !in out ensures Precedes(less, x, y) {
      if y in ahead {
        assert Precedes(less, x, y) || !Precedes(less, x, y);
      } else if y in o {
        LookaheadPrecedes(less, heldO, o, n, outO, out, x, y, ahead);
      } else {
        LookaheadPrecedes(less, heldP, p, n, outP, out, x, y, ahead);
      }
    }
    MergedSize(heldO, heldP, o, p, n, outO, outP);
  }

  lemma MergedSize(heldO: set<Text>, heldP: set<Text>, o: set<Text>, p: set<Text>, n: nat, outO: set<Text>, outP: set<Text>)
    requires o !! p && heldO <= o && heldP <= p
    requires (|heldO| < n + 1 ==> heldO == o) && (|heldP| < n + 1 ==> heldP == p)
    requires outO <= heldO && outP <= heldP && |outO| + |outP| <= n
    requires |outO| + |outP| < n ==> outO == heldO && outP == heldP
    ensures |outO + outP| < n ==> outO + outP == o + p
    ensures |o + p| > n <==> outO != heldO || outP != heldP
    ensures |outO + outP| == |outO| + |outP|
  {
    var out := outO + outP;
    assert |out| == |outO| + |outP|;
    if outO == heldO && outP == heldP {
      assert out == o + p;
    } else {
      assert heldO - outO != {} || heldP - outP != {};
      var z :| z in heldO - outO || z in heldP - outP;
      assert |out + {z}| == n + 1;
      SubsetSize(out + {z}, o + p);
    }
  }

  lemma LookaheadPrecedes(less: Order, held: set<Text>, s: set<Text>, n: nat, emitted: set<Text>, out: set<Text>, x: Text, y: Text, ahead: set<Text>)
    requires StrictOrder(less) && AreSmallest(less, held, s, n + 1)
    requires emitted <= held && |emitted| <= n && y in s && y !in held && x in out && held - emitted <= ahead
    requires forall a, b {:trigger Precedes(less, a, b)} | a in out && b in ahead :: Precedes(less, a, b)
    ensures Precedes(less, x, y)
  {
    assert Opened(0);
    BiggerHasMore(emitted, held);
    var z :| z in held - emitted;
    assert Precedes(less, x, z) || !Precedes(less, x, z);
    assert Precedes(less, z, y) || !Precedes(less, z, y);
  }

  lemma AscendingSplit(less: Order, r: seq<Text>, i: nat)
    requires StrictOrder(less) && Ascending(less, r) && i <= |r|
    ensures ToSet(r) - ToSet(r[..i]) == ToSet(r[i..])
    ensures |ToSet(r[..i])| == i && ToSet(r[..i]) <= ToSet(r)
    ensures i > 0 ==> IsGreatest(less, r[i - 1], ToSet(r[..i]))
    ensures i < |r| ==> IsLeast(less, r[i], ToSet(r[i..]))
  {
    assert Opened(0);
    assert r == r[..i] + r[i..];
    AscendingHasNoDuplicates(less, r[..i]);
    forall x | x in r[..i] ensures x !in r[i..] {
      var a :| 0 <= a < i && r[a] == x;
      assert forall b | i <= b < |r| :: less(r[a], r[b]);
    }
    if i > 0 {
      assert r[..i][i - 1] == r[i - 1];
    }
    if i < |r| {
      assert r[i..][0] == r[i];
    }
  }

  lemma FrontierPrecedes(less: Order, objs: seq<Text>, pres: seq<Text>, i: nat, j: nat, x: Text, y: Text)
    requires StrictOrder(less) && Ascending(less, objs) && Ascending(less, pres)
    requires i <= |objs| && j <= |pres| && Frontier(less, objs, pres, i, j)
    requires x in objs[..i] || x in pres[..j]
    requires y in objs[i..] || y in pres[j..]
    ensures less(x, y)
  {
    assert Opened(0);
    AscendingSplit(less, objs, i);
    AscendingSplit(less, pres, j);
    assert x in ToSet(objs[..i]) || x in ToSet(pres[..j]);
    assert y in ToSet(objs[i..]) || y in ToSet(pres[j..]);
  }

  // ---- One page equals its specification ----

  lemma GreatestIsLast(less: Order, out: set<Text>, m: Text)
    requires StrictOrder(less) && IsGreatest(less, m, out)
    ensures Sorted(less, out) != [] && Sorted(less, out)[|out| - 1] == m
  {
    assert Opened(0);
    SortedIsSorted(less, out);
    AscendingSplit(less, Sorted(less, out), |out|);
    assert Sorted(less, out)[..|out|] == Sorted(less, out);
  }

  lemma LastIsGreatest(less: Order, objs: seq<Text>, pres: seq<Text>, i: nat, j: nat, last: Option<Text>)
    requires StrictOrder(less) && Ascending(less, objs) && Ascending(less, pres)
    requires i <= |objs| && j <= |pres| && IsLast(less, objs, pres, i, j, last) && i + j > 0
    ensures IsGreatest(less, last.value, ToSet(objs[..i]) + ToSet(pres[..j]))
  {
    assert Opened(0);
    AscendingSplit(less, objs, i);
    AscendingSplit(less, pres, j);
  }

  lemma EmittedAreSmallest(less: Order, objs: seq<Text>, pres: seq<Text>, o: set<Text>, p: set<Text>, n: nat, i: nat, j: nat)
    requires StrictOrder(less) && o !! p
    requires Ascending(less, objs) && Ascending(less, pres)
    requires AreSmallest(less, ToSet(objs), o, n + 1) && AreSmallest(less, ToSet(pres), p, n + 1)
    requires i <= |objs| && j <= |pres| && i + j <= n && Frontier(less, objs, pres, i, j)
    requires i + j < n ==> i == |objs| && j == |pres|
    ensures AreSmallest(less, ToSet(objs[..i]) + ToSet(pres[..j]), o + p, n)
    ensures |o + p| > n <==> i < |objs| || j < |pres|
    ensures ToSet(objs[..i]) <= o && ToSet(pres[..j]) <= p
    ensures |ToSet(objs[..i]) + ToSet(pres[..j])| == i + j
  {
    EmittedPart(less, objs, i);
    EmittedPart(less, pres, j);
    FrontierSets(less, objs, pres, i, j);
    MergedAreSmallest(less, ToSet(objs), ToSet(pres), o, p, n, ToSet(objs[..i]), ToSet(pres[..j]));
  }

  lemma EmittedPart(less: Order, r: seq<Text>, i: nat)
    requires StrictOrder(less) && Ascending(less, r) && i <= |r|
    ensures ToSet(r[..i]) <= ToSet(r) && |ToSet(r[..i])| == i
    ensures ToSet(r[..i]) == ToSet(r) <==> i == |r|
  {
    AscendingSplit(less, r, i);
    AscendingHasNoDuplicates(less, r);
    assert i == |r| ==> r[..i] == r;
  }

  lemma FrontierSets(less: Order, objs: seq<Text>, pres: seq<Text>, i: nat, j: nat)
    requires StrictOrder(less) && Ascending(less, objs) && Ascending(less, pres)
    requires i <= |objs| && j <= |pres| && Frontier(less, objs, pres, i, j)
    ensures forall x, y {:trigger Precedes(less, x, y)} |
              x in ToSet(objs[..i]) + ToSet(pres[..j]) && y in (ToSet(objs) - ToSet(objs[..i])) + (ToSet(pres) - ToSet(pres[..j])) ::
              Precedes(less, x, y)
  {
    AscendingSplit(less, objs, i);
    AscendingSplit(less, pres, j);
    forall x, y {:trigger Precedes(less, x, y)} |
      x in ToSet(objs[..i]) + ToSet(pres[..j]) && y in (ToSet(objs) - ToSet(objs[..i])) + (ToSet(pres) - ToSet(pres[..j]))
      ensures Precedes(less, x, y)
    {
      FrontierPrecedes(less, objs, pres, i, j, x, y);
    }
  }

  lemma PrefixSorts(less: Order, r: seq<Text>, i: nat)
    requires StrictOrder(less) && Ascending(less, r) && i <= |r|
    ensures Sorted(less, ToSet(r[..i])) == r[..i]
  {
    SortedIsUnique(less, ToSet(r[..i]), r[..i]);
  }

  /** The sets of held keys, read out in order and merged, give the sorted cut of their union. */
  lemma MergedKeys(less: Order, heldO: set<Text>, heldP: set<Text>, o: set<Text>, p: set<Text>, n: nat,
                   i: nat, j: nat, outO: set<Text>, outP: set<Text>, keys: seq<Text>)
    requires StrictOrder(less) && o !! p
    requires AreSmallest(less, heldO, o, n + 1) && AreSmallest(less, heldP, p, n + 1)
    requires i <= |heldO| && j <= |heldP| && i + j <= n && Frontier(less, Sorted(less, heldO), Sorted(less, heldP), i, j)
    requires i + j < n ==> i == |heldO| && j == |heldP|
    requires outO == ToSet(Sorted(less, heldO)[..i]) && outP == ToSet(Sorted(less, heldP)[..j])
    requires keys == Sorted(less, o + p)[..Least(n, |o + p|)]
    ensures keys == Sorted(less, outO + outP) && ToSet(keys) == outO + outP && |keys| == i + j
    ensures outO <= o && outP <= p
    ensures Sorted(less, outO) == Sorted(less, heldO)[..i] && Sorted(less, outP) == Sorted(less, heldP)[..j]
    ensures |o + p| > n <==> i < |heldO| || j < |heldP|
  {
    MergedSets(less, heldO, heldP, o, p, n, i, j, outO, outP);
    CutIsSorted(less, outO + outP, o + p, n, keys);
  }

  lemma MergedSets(less: Order, heldO: set<Text>, heldP: set<Text>, o: set<Text>, p: set<Text>, n: nat, i: nat, j: nat, outO: set<Text>, outP: set<Text>)
    requires StrictOrder(less) && o !! p
    requires AreSmallest(less, heldO, o, n + 1) && AreSmallest(less, heldP, p, n + 1)
    requires i <= |heldO| && j <= |heldP| && i + j <= n && Frontier(less, Sorted(less, heldO), Sorted(less, heldP), i, j)
    requires i + j < n ==> i == |heldO| && j == |heldP|
    requires outO == ToSet(Sorted(less, heldO)[..i]) && outP == ToSet(Sorted(less, heldP)[..j])
    ensures AreSmallest(less, outO + outP, o + p, n) && |outO + outP| == i + j
    ensures |o + p| > n <==> i < |heldO| || j < |heldP|
    ensures outO <= o && outP <= p
    ensures Sorted(less, outO) == Sorted(less, heldO)[..i] && Sorted(less, outP) == Sorted(less, heldP)[..j]
  {
    SortedIsSorted(less, heldO);
    SortedIsSorted(less, heldP);
    EmittedAreSmallest(less, Sorted(less, heldO), Sorted(less, heldP), o, p, n, i, j);
    PrefixSorts(less, Sorted(less, heldO), i);
    PrefixSorts(less, Sorted(less, heldP), j);
  }

  lemma CutIsSorted(less: Order, out: set<Text>, all: set<Text>, n: nat, keys: seq<Text>)
    requires StrictOrder(less) && AreSmallest(less, out, all, n) && keys == Sorted(less, all)[..Least(n, |all|)]
    ensures keys == Sorted(less, out) && ToSet(keys) == out && |keys| == |out|
  {
    SmallestSortsToCut(less, out, all, n);
    SortedIsSorted(less, out);
  }

  lemma MergedLast(less: Order, heldO: set<Text>, heldP: set<Text>, i: nat, j: nat, last: Option<Text>, outO: set<Text>, outP: set<Text>, keys: seq<Text>)
    requires StrictOrder(less) && i <= |heldO| && j <= |heldP|
    requires IsLast(less, Sorted(less, heldO), Sorted(less, heldP), i, j, last)
    requires outO == ToSet(Sorted(less, heldO)[..i]) && outP == ToSet(Sorted(less, heldP)[..j])
    requires keys == Sorted(less, outO + outP) && |keys| == i + j
    ensures keys != [] ==> last == Some(keys[|keys| - 1])
  {
    SortedIsSorted(less, heldO);
    SortedIsSorted(less, heldP);
    LastIsLast(less, Sorted(less, heldO), Sorted(less, heldP), i, j, last, outO + outP);
  }

  lemma LastIsLast(less: Order, objs: seq<Text>, pres: seq<Text>, i: nat, j: nat, last: Option<Text>, out: set<Text>)
    requires StrictOrder(less) && Ascending(less, objs) && Ascending(less, pres)
    requires i <= |objs| && j <= |pres| && IsLast(less, objs, pres, i, j, last) && out == ToSet(objs[..i]) + ToSet(pres[..j])
    ensures i + j > 0 ==> Sorted(less, out) != [] && last == Some(Sorted(less, out)[|out| - 1])
  {
    if i + j > 0 {
      LastIsGreatest(less, objs, pres, i, j, last);
      GreatestIsLast(less, out, last.value);
    }
  }

  lemma MergedPage(less: Order, objects: set<Text>, prefixes: set<Text>, marker: Option<Text>, n: nat, heldO: set<Text>, heldP: set<Text>,
                   objs: seq<Object>, pres: seq<Text>, i: nat, j: nat, last: Option<Text>)
    requires StrictOrder(less) && objects !! prefixes
    requires AreSmallest(less, heldO, After(less, objects, marker), n + 1)
    requires AreSmallest(less, heldP, After(less, prefixes, marker), n + 1)
    requires Keys(objs) == Sorted(less, heldO) && pres == Sorted(less, heldP)
    requires i <= |objs| && j <= |pres| && i + j <= n && Frontier(less, Keys(objs), pres, i, j)
    requires i + j < n ==> i == |objs| && j == |pres|
    requires IsLast(less, Keys(objs), pres, i, j, last)
    ensures var truncated := i < |objs| || j < |pres|;
            IsCut(less, objects, prefixes, marker, n, Page(i + j, n, truncated, objs[..i], pres[..j], if truncated then last else None))
  {
    var outO, outP := ToSet(Sorted(less, heldO)[..i]), ToSet(Sorted(less, heldP)[..j]);
    var all := After(less, objects + prefixes, marker);
    var keys := Sorted(less, all)[..Least(n, |all|)];
    AfterUnion(less, objects, prefixes, marker);
    assert After(less, objects, marker) !! After(less, prefixes, marker);
    MergedKeys(less, heldO, heldP, After(less, objects, marker), After(less, prefixes, marker), n, i, j, outO, outP, keys);
    MergedLast(less, heldO, heldP, i, j, last, outO, outP, keys);
    KeysOfPrefix(objs, i);
    var truncated := i < |objs| || j < |pres|;
    CutOfKeys(less, objects, prefixes, marker, n, keys, outO, outP, objs[..i], pres[..j], truncated, if truncated then last else None);
  }

  lemma CutOfKeys(less: Order, objects: set<Text>, prefixes: set<Text>, marker: Option<Text>, n: nat, keys: seq<Text>,
                  outO: set<Text>, outP: set<Text>, contents: seq<Object>, commonPrefixes: seq<Text>, truncated: bool, token: Option<Text>)
    requires StrictOrder(less) && objects !! prefixes && outO <= objects && outP <= prefixes
    requires keys == CutAfter(less, objects + prefixes, marker, n)
    requires ToSet(keys) == outO + outP && |contents| + |commonPrefixes| == |keys|
    requires token == if truncated && keys != [] then Some(keys[|keys| - 1]) else None
    requires truncated <==> |After(less, objects + prefixes, marker)| > n
    requires Keys(contents) == Sorted(less, outO) && commonPrefixes == Sorted(less, outP)
    ensures IsCut(less, objects, prefixes, marker, n, Page(|contents| + |commonPrefixes|, n, truncated, contents, commonPrefixes, token))
  {
    DisjointParts(outO, outP, objects, prefixes);
  }

  lemma AfterUnion(less: Order, a: set<Text>, b: set<Text>, marker: Option<Text>)
    ensures After(less, a + b, marker) == After(less, a, marker) + After(less, b, marker)
    ensures After(less, a, marker) <= a && After(less, b, marker) <= b
  {
  }

  lemma DisjointParts<K>(a: set<K>, b: set<K>, s: set<K>, t: set<K>)
    requires a <= s && b <= t && s !! t
    ensures (a + b) * s == a && (a + b) * t == b
  {
  }

  lemma KeysOfPrefix(objs: seq<Object>, i: nat)
    requires i <= |objs|
    ensures Keys(objs[..i]) == Keys(objs)[..i]
  {
  }

  /** The second half of a listing: interleave what was kept, and say whether more is to come. */
  method CutPage(less: Order, maxKeys: nat, objs: seq<Object>, pres: seq<Text>, ghost marker: Option<Text>,
                 ghost objects: set<Text>, ghost prefixes: set<Text>, ghost heldO: set<Text>, ghost heldP: set<Text>)
    returns (r: Response)
    requires StrictOrder(less)
    requires AreSmallest(less, heldO, After(less, objects, marker), maxKeys + 1)
    requires AreSmallest(less, heldP, After(less, prefixes, marker), maxKeys + 1)
    requires Keys(objs) == Sorted(less, heldO) && pres == Sorted(less, heldP)
    ensures r.Page? && r.contents <= objs
    ensures IsMergedPage(less, objects, prefixes, marker, maxKeys, r)
    ensures objects !! prefixes ==> IsCut(less, objects, prefixes, marker, maxKeys, r)
  {
    assert Ascending(less, Keys(objs)) && Ascending(less, pres) by {
      SortedIsSorted(less, heldO);
      SortedIsSorted(less, heldP);
    }
    var i, j, last := Merge(less, objs, pres, maxKeys);
    var isTruncated := i < |objs| || j < |pres|;
    r := Page(i + j, maxKeys, isTruncated, objs[..i], pres[..j], if isTruncated then last else None);
    PageIsMerged(less, objects, prefixes, marker, maxKeys, heldO, heldP, objs, pres, i, j, last, r);
    if objects !! prefixes {
      MergeReady(less, objects, prefixes, marker, maxKeys, heldO, heldP, objs, pres);
      MergedPage(less, objects, prefixes, marker, maxKeys, heldO, heldP, objs, pres, i, j, last);
    }
  }

  lemma PageIsMerged(less: Order, objects: set<Text>, prefixes: set<Text>, marker: Option<Text>, n: nat, heldO: set<Text>, heldP: set<Text>,
                     objs: seq<Object>, pres: seq<Text>, i: nat, j: nat, last: Option<Text>, r: Response)
    requires StrictOrder(less) && i <= |objs| && j <= |pres|
    requires AreSmallest(less, heldO, After(less, objects, marker), n + 1)
    requires AreSmallest(less, heldP, After(less, prefixes, marker), n + 1)
    requires Keys(objs) == Sorted(less, heldO) && pres == Sorted(less, heldP)
    requires Progress(i, j, last) == MergedTo(less, Keys(objs), pres, n)
    requires var isTruncated := i < |objs| || j < |pres|;
      r == Page(i + j, n, isTruncated, objs[..i], pres[..j], if isTruncated then last else None)
    ensures IsMergedPage(less, objects, prefixes, marker, n, r)
  {
    SmallestIsUnique(less, heldO, After(less, objects, marker), n + 1);
    SmallestIsUnique(less, heldP, After(less, prefixes, marker), n + 1);
    KeysOfPrefix(objs, i);
  }

  lemma MergeReady(less: Order, objects: set<Text>, prefixes: set<Text>, marker: Option<Text>, n: nat, heldO: set<Text>, heldP: set<Text>,
                   objs: seq<Object>, pres: seq<Text>)
    requires StrictOrder(less) && objects !! prefixes
    requires AreSmallest(less, heldO, After(less, objects, marker), n + 1)
    requires AreSmallest(less, heldP, After(less, prefixes, marker), n + 1)
    requires Keys(objs) == Sorted(less, heldO) && pres == Sorted(less, heldP)
    ensures Apart(objs, pres)
  {
    assert Opened(0);
    forall a, b | 0 <= a < |objs| && 0 <= b < |pres| ensures objs[a].key != pres[b] {
      assert Keys(objs)[a] in ToSet(Keys(objs)) && pres[b] in ToSet(pres);
    }
  }

  /** What a finished walk leaves in the accumulator, read out in order. */
  lemma CollectedPage(t: Bucket, objects: map<Text, Object>, offered: map<Text, Object>, keys: seq<Text>, objs: seq<Object>)
    requires forall k | k in objects :: k in offered && objects[k] == offered[k]
    requires forall k | k in offered :: PathOf(k) in t.files && offered[k] == ObjectAt(t, k)
    requires |objs| == |keys| && forall i | 0 <= i < |objs| :: keys[i] in objects && objs[i] == objects[keys[i]]
    ensures Keys(objs) == keys
    ensures forall o | o in objs :: PathOf(o.key) in t.files && o == ObjectAt(t, o.key)
  {
  }

  /** The page shows the key, as an object or as a common prefix. */
  predicate Shows(r: Response, key: Text) {
    r.Page? && (key in Keys(r.contents) || key in r.commonPrefixes)
  }

  /** All that the page shows comes after `k`. */
  ghost predicate IsBehind(r: Response, k: Text) {
    forall key | Shows(r, key) :: Less(k, key)
  }

  /** Nothing that lies between the marker and something on the page is missing from the page. */
  ghost predicate HasNoGap(entries: set<Text>, marker: Option<Text>, r: Response) {
    forall e, key | e in entries && Shows(r, key) && Less(e, key) && (marker.Some? ==> Less(marker.value, e)) :: Shows(r, e)
  }

  lemma MergedPageIsBehindMarker(objects: set<Text>, prefixes: set<Text>, marker: Option<Text>, n: nat, r: Response)
    requires StrictOrder(Less) && IsMergedPage(Less, objects, prefixes, marker, n, r)
    ensures marker.Some? ==> IsBehind(r, marker.value)
    ensures r.maxKeys == n && r.keyCount == |r.contents| + |r.commonPrefixes| <= n
  {
    var objs, pres := Lookahead(Less, objects, marker, n), Lookahead(Less, prefixes, marker, n);
    LookaheadIsAfter(objects, marker, n);
    LookaheadIsAfter(prefixes, marker, n);
    MergedToTakesOneEach(Less, objs, pres, n);
    forall key | Shows(r, key) ensures key in objs || key in pres {
      var m := MergedTo(Less, objs, pres, n);
      assert key in objs[..m.i] || key in pres[..m.j];
    }
  }

  lemma LookaheadIsAfter(keys: set<Text>, marker: Option<Text>, n: nat)
    requires StrictOrder(Less)
    ensures forall k | k in Lookahead(Less, keys, marker, n) :: k in After(Less, keys, marker)
  {
    var after := After(Less, keys, marker);
    SmallestAreSmallest(Less, after, n + 1);
    assert Opened(0);
    SortedIsSorted(Less, Smallest(Less, after, n + 1));
    assert forall k | k in Lookahead(Less, keys, marker, n) :: k in ToSet(Lookahead(Less, keys, marker, n));
  }

  lemma {:induction false} MergedToTakesOneEach(less: Order, objs: seq<Text>, pres: seq<Text>, n: nat)
    ensures var m := MergedTo(less, objs, pres, n); m.i + m.j <= n
  {
    if n > 0 {
      MergedToTakesOneEach(less, objs, pres, n - 1);
    }
  }

  lemma CutHasNoGap(objects: set<Text>, prefixes: set<Text>, marker: Option<Text>, n: nat, r: Response)
    requires StrictOrder(Less) && IsCut(Less, objects, prefixes, marker, n, r)
    ensures HasNoGap(objects + prefixes, marker, r)
    ensures r.keyCount == Least(n, |After(Less, objects + prefixes, marker)|)
  {
    var entries := objects + prefixes;
    var after := After(Less, entries, marker);
    var keys := CutAfter(Less, entries, marker, n);
    SortedIsSorted(Less, after);
    SmallestAreSmallest(Less, after, n);
    assert ToSet(keys) == Smallest(Less, after, n);
    CutShows(objects, prefixes, marker, n, r);
    forall e, key | e in entries && Shows(r, key) && Less(e, key) && (marker.Some? ==> Less(marker.value, e)) ensures Shows(r, e) {
      assert e in after;
      BelowSmallestIsSmallest(after, n, key, e);
    }
  }

  lemma BelowSmallestIsSmallest(s: set<Text>, n: nat, x: Text, y: Text)
    requires StrictOrder(Less) && x in Smallest(Less, s, n) && y in s
    ensures Less(y, x) ==> y in Smallest(Less, s, n)
  {
    SmallestAreSmallest(Less, s, n);
    assert Opened(0);
    if y !in Smallest(Less, s, n) {
      assert Precedes(Less, x, y);
    }
  }

  lemma CutShows(objects: set<Text>, prefixes: set<Text>, marker: Option<Text>, n: nat, r: Response)
    requires StrictOrder(Less) && IsCut(Less, objects, prefixes, marker, n, r)
    ensures forall k :: Shows(r, k) <==> k in ToSet(CutAfter(Less, objects + prefixes, marker, n))
  {
    var entries, keys := objects + prefixes, CutAfter(Less, objects + prefixes, marker, n);
    SortedIsSorted(Less, ToSet(keys) * objects);
    SortedIsSorted(Less, ToSet(keys) * prefixes);
    SortedIsSorted(Less, After(Less, entries, marker));
    forall k ensures Shows(r, k) <==> k in ToSet(keys) {
      assert k in Keys(r.contents) <==> k in ToSet(Keys(r.contents));
      assert k in r.commonPrefixes <==> k in ToSet(r.commonPrefixes);
      assert k in ToSet(keys) ==> k in ToSet(Sorted(Less, After(Less, entries, marker)));
    }
  }

  /** Cutting a key behind the delimiter's first byte cuts no character in two. */
  ghost predicate CutsNoCharacter(t: Bucket, scope: Scope)
    requires scope.Valid()
  {
    scope.delimiter.Some? && scope.delimiter.value[0] >= 0x80 ==> PrefixKeys(t, scope) == {}
  }

  /** `ListObjectsV2`, with the bucket's tree read in any order. */
  method ListObjectsV2(bucket: Option<Bucket>, request: Request) returns (r: Response)
    requires bucket.Some? ==> bucket.value.WellFormed() && CutsNoCharacter(bucket.value, request.Scope())
    ensures r.NoSuchBucket? <==> bucket.None?
    ensures StrictOrder(Less)
    ensures bucket.Some? ==>
      IsMergedPage(Less, ObjectKeys(bucket.value, request.Scope()), PrefixKeys(bucket.value, request.Scope()), request.ResumeAfter(), request.PageSize(), r)
    ensures bucket.Some? && ObjectKeys(bucket.value, request.Scope()) !! PrefixKeys(bucket.value, request.Scope()) ==>
      IsPage(bucket.value, request.Scope(), request.ResumeAfter(), request.PageSize(), r)
    ensures bucket.Some? && (request.Scope().delimiter.Some? ==> Separates(request.Scope().delimiter.value)) ==>
      IsPage(bucket.value, request.Scope(), request.ResumeAfter(), request.PageSize(), r)
    ensures bucket.Some? ==> r.Page? && r.keyCount == |r.contents| + |r.commonPrefixes| <= r.maxKeys <= 1000
    ensures bucket.Some? && request.continuationToken.Some? ==> IsBehind(r, request.continuationToken.value)
    ensures bucket.Some? && request.continuationToken.None? && request.startAfter.Some? ==> IsBehind(r, request.startAfter.value)
  {
    LessIsStrictOrder();
    if bucket.None? {
      return NoSuchBucket;
    }
    var t, scope, maxKeys := bucket.value, request.Scope(), request.PageSize();
    var page := new ListingPage(Less, request.ResumeAfter(), maxKeys);
    if scope.delimiter.Some? {
      ghost var read := ListObjectsWithDelimiter(t, scope, page);
    } else {
      ghost var read := ListObjectsRecursive(t, scope, page);
    }
    var objs, pres := page.IntoSorted();
    assert Opened(0);
    ghost var keys := Sorted(Less, page.objects.Keys);
    CollectedPage(t, page.objects, page.offered, keys, objs);
    r := CutPage(Less, maxKeys, objs, pres, request.ResumeAfter(), ObjectKeys(t, scope), PrefixKeys(t, scope), page.objects.Keys, page.prefixes);
    MergedPageIsBehindMarker(ObjectKeys(t, scope), PrefixKeys(t, scope), request.ResumeAfter(), maxKeys, r);
    if scope.delimiter.Some? ==> Separates(scope.delimiter.value) {
      ObjectsAndPrefixesDisjoint(t, scope);
    }
  }
}
