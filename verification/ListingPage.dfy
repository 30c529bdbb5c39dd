/** The bounded accumulator that one listing page is collected into. */
module ListingPages {
  import opened Bytes
  import opened KeySets

  datatype Object = Object(key: Text, size: nat, lastModified: int, etag: Option<Text>)

  const USIZE_MAX: nat := 0xFFFF_FFFF_FFFF_FFFF

  type Order = (Text, Text) -> bool

  /** `held` is `seen` cut down to its `keep` smallest keys after the marker. */
  ghost predicate KeepsEntries<V>(less: Order, held: map<Text, V>, seen: map<Text, V>, marker: Option<Text>, keep: nat) {
    && Keeps(less, held.Keys, seen.Keys, marker, keep)
    && forall k | k in held :: k in seen && held[k] == seen[k]
  }

  /** The map without its largest key, once it holds more than `keep`. */
  function Cut<V>(less: Order, m: map<Text, V>, keep: nat): map<Text, V>
    requires StrictOrder(less)
  {
    if |m| <= keep then m else m - {LastKey(less, m.Keys)}
  }

  lemma EntryPushed<V>(less: Order, held: map<Text, V>, seen: map<Text, V>, marker: Option<Text>, keep: nat, key: Text, item: V)
    requires StrictOrder(less) && KeepsEntries(less, held, seen, marker, keep)
    requires marker.Some? ==> less(marker.value, key)
    ensures KeepsEntries(less, Cut(less, held[key := item], keep), seen[key := item], marker, keep)
  {
    var grown := held[key := item];
    assert grown.Keys == held.Keys + {key};
    assert seen[key := item].Keys == seen.Keys + {key};
    assert Keeps(less, Cut(less, grown, keep).Keys, seen.Keys + {key}, marker, keep) by {
      KeepsAfterInsert(less, held.Keys, seen.Keys, marker, keep, key);
      if |grown| > keep {
        assert Cut(less, grown, keep).Keys == grown.Keys - {LastKey(less, grown.Keys)};
      }
    }
  }

  /** What is held depends on what was offered and on nothing else: not on the order, not on the gate. */
  lemma HeldIsDetermined<V>(less: Order, held: map<Text, V>, seen: map<Text, V>, marker: Option<Text>, keep: nat)
    requires StrictOrder(less) && KeepsEntries(less, held, seen, marker, keep)
    ensures held == map k | k in seen && k in Smallest(less, After(less, seen.Keys, marker), keep) :: seen[k]
  {
    SmallestIsUnique(less, held.Keys, After(less, seen.Keys, marker), keep);
  }

  class ListingPage {
    /** How a sorted map orders its keys; `Bytes.Less` in a listing. */
    const less: Order
    const resumeAfter: Option<Text>
    /** The page itself plus one lookahead entry. */
    const keep: nat
    var objects: map<Text, Object>
    var prefixes: set<Text>

    /** Everything the walk has come across so far, whether or not it was kept. */
    ghost var offered: map<Text, Object>
    ghost var offeredPrefixes: set<Text>

    /** What is held is exactly the `keep` smallest entries after the marker. */
    ghost predicate Valid()
      reads this
    {
      forall i: int {:trigger Opened(i)} | Opened(i) :: Consistent()
    }

    ghost predicate Consistent()
      reads this
    {
      && StrictOrder(less)
      && keep >= 1
      && KeepsEntries(less, objects, offered, resumeAfter, keep)
      && Keeps(less, prefixes, offeredPrefixes, resumeAfter, keep)
    }

    constructor (less: Order, resumeAfter: Option<Text>, limit: nat)
      requires StrictOrder(less)
      requires limit <= USIZE_MAX
      ensures Valid() && this.less == less && this.resumeAfter == resumeAfter
      ensures keep == if limit == USIZE_MAX then limit else limit + 1
      ensures offered == map[] && offeredPrefixes == {}
    {
      this.less, this.resumeAfter := less, resumeAfter;
      keep := if limit == USIZE_MAX then limit else limit + 1;
      objects, prefixes, offered, offeredPrefixes := map[], {}, map[], {};
    }

    /** Whether an entry lies at or before the resume marker. */
    predicate Passed(key: Text) {
      resumeAfter.Some? && (key == resumeAfter.value || less(key, resumeAfter.value))
    }

    /** Whether `key` could still make it into the page. */
    predicate Accepts(key: Text)
      requires Valid()
      reads this
    {
      assert Opened(0);
      if Passed(key) then false
      else if |objects| < keep then true
      else objects == map[] || less(key, LastKey(less, objects.Keys))
    }

    /** A refused key may be left out: the page is the same as if it had been offered. */
    ghost method Refuse(key: Text, item: Object)
      requires Valid() && !Accepts(key)
      requires key in offered ==> offered[key] == item
      modifies this`offered
      ensures Valid() && offered == old(offered)[key := item]
    {
      assert Opened(0);
      offered := offered[key := item];
    }

    method PushObject(key: Text, item: Object)
      requires Valid()
      requires key in offered ==> offered[key] == item
      modifies this`objects, this`offered
      ensures Valid() && offered == old(offered)[key := item]
      ensures !old(Accepts(key)) ==> objects == old(objects)
    {
      if !Accepts(key) {
        Refuse(key, item);
        return;
      }
      assert Opened(0);
      EntryPushed(less, objects, offered, resumeAfter, keep, key, item);
      offered := offered[key := item];
      objects := DropSurplus(less, objects[key := item], keep);
    }

    method PushPrefix(prefix: Text)
      requires Valid()
      modifies this`prefixes, this`offeredPrefixes
      ensures Valid() && offeredPrefixes == old(offeredPrefixes) + {prefix}
    {
      assert Opened(0);
      offeredPrefixes := offeredPrefixes + {prefix};
      if Passed(prefix) {
        return;
      }
      KeepsAfterInsert(less, prefixes, old(offeredPrefixes), resumeAfter, keep, prefix);
      prefixes := DropSurplusKeys(less, prefixes + {prefix}, keep);
    }

    /** The retained candidates in key order. */
    method IntoSorted() returns (objs: seq<Object>, pres: seq<Text>)
      requires Valid()
      ensures Consistent() && pres == Sorted(less, prefixes)
      ensures |objs| == |objects|
      ensures forall i | 0 <= i < |objs| :: Sorted(less, objects.Keys)[i] in objects && objs[i] == objects[Sorted(less, objects.Keys)[i]]
    {
      assert Opened(0);
      var keys := SortedKeys(less, objects.Keys);
      SortedIsSorted(less, objects.Keys);
      objs := ValuesInOrder(objects, keys);
      pres := SortedKeys(less, prefixes);
    }
  }

  /** The gate is exact: a key not met before is worth a `stat` exactly when it belongs among the entries to keep. */
  lemma GateIsExact(page: ListingPage, key: Text)
    requires page.Valid() && key !in page.offered
    ensures StrictOrder(page.less)
    ensures page.Accepts(key) <==> key in Smallest(page.less, After(page.less, page.offered.Keys + {key}, page.resumeAfter), page.keep)
  {
    assert Opened(0);
    if page.Passed(key) {
      assert page.resumeAfter.Some? && !page.less(page.resumeAfter.value, key);
      SmallestAreSmallest(page.less, After(page.less, page.offered.Keys + {key}, page.resumeAfter), page.keep);
    } else {
      KeptWhenInserted(page.less, page.objects.Keys, page.offered.Keys, page.resumeAfter, page.keep, key);
    }
  }

  lemma KeptWhenInserted(less: Order, held: set<Text>, seen: set<Text>, marker: Option<Text>, keep: nat, key: Text)
    requires StrictOrder(less) && Keeps(less, held, seen, marker, keep) && keep >= 1
    requires key !in seen && (marker.Some? ==> less(marker.value, key))
    ensures key in Smallest(less, After(less, seen + {key}, marker), keep) <==> |held| < keep || held == {} || less(key, LastKey(less, held))
  {
    assert Opened(0);
    KeepsAfterInsert(less, held, seen, marker, keep, key);
    var all := After(less, seen + {key}, marker);
    assert key !in held;
    if |held| < keep {
      SmallestIsUnique(less, held + {key}, all, keep);
    } else {
      var last := LastKey(less, held);
      var most := if less(key, last) then last else key;
      assert IsGreatest(less, most, held + {key});
      SmallestIsUnique(less, held + {key} - {most}, all, keep);
    }
  }

  method ValuesInOrder<V>(m: map<Text, V>, keys: seq<Text>) returns (r: seq<V>)
    requires ToSet(keys) == m.Keys
    ensures |r| == |keys| && forall i | 0 <= i < |r| :: keys[i] in m && r[i] == m[keys[i]]
  {
    r := [];
    for i := 0 to |keys|
      invariant |r| == i
      invariant forall j | 0 <= j < i :: keys[j] in m && r[j] == m[keys[j]]
    {
      assert keys[i] in ToSet(keys);
      r := r + [m[keys[i]]];
    }
  }

  /** Pop the largest entry until no more than `keep` are left. */
  method DropSurplus<V>(less: Order, m: map<Text, V>, keep: nat) returns (r: map<Text, V>)
    requires StrictOrder(less) && |m| <= keep + 1
    ensures r == Cut(less, m, keep)
  {
    r := m;
    while |r| > keep
      invariant r == m || (|m| > keep && r == m - {LastKey(less, m.Keys)} && |r| <= keep)
    {
      r := r - {LastKey(less, r.Keys)};
      assert r.Keys == m.Keys - {LastKey(less, m.Keys)};
    }
  }

  method DropSurplusKeys(less: Order, s: set<Text>, keep: nat) returns (r: set<Text>)
    requires StrictOrder(less) && |s| <= keep + 1
    ensures r == if |s| <= keep then s else s - {LastKey(less, s)}
  {
    r := s;
    while |r| > keep
      invariant r == s || (|s| > keep && r == s - {LastKey(less, s)} && |r| <= keep)
    {
      r := r - {LastKey(less, r)};
    }
  }

  method SortedKeys(less: Order, s: set<Text>) returns (r: seq<Text>)
    requires StrictOrder(less)
    ensures r == Sorted(less, s)
  {
    r := [];
    var rest := s;
    while rest != {}
      invariant r + Sorted(less, rest) == Sorted(less, s)
      decreases |rest|
    {
      var k, others := PopFirst(less, rest);
      assert r + ([k] + Sorted(less, others)) == (r + [k]) + Sorted(less, others);
      r, rest := r + [k], others;
    }
  }

  method PopFirst(less: Order, s: set<Text>) returns (k: Text, rest: set<Text>)
    requires StrictOrder(less) && s != {}
    ensures Sorted(less, s) == [k] + Sorted(less, rest)
    ensures |rest| < |s|
  {
    k := FirstKey(less, s);
    rest := s - {k};
    SortedCons(less, s, k);
  }

  lemma SortedCons(less: Order, s: set<Text>, k: Text)
    requires StrictOrder(less) && IsLeast(less, k, s)
    ensures Sorted(less, s) == [k] + Sorted(less, s - {k})
  {
    assert Opened(0);
    SortedIsSorted(less, s - {k});
    ConsAscending(less, k, Sorted(less, s - {k}));
    SortedIsUnique(less, s, [k] + Sorted(less, s - {k}));
  }
}
