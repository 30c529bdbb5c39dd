/** Finite sets of keys in key order: sorting, and the `n` smallest keys of a set. */
module KeySets {
  import opened Bytes

  ghost predicate Ascending<K(!new)>(less: (K, K) -> bool, s: seq<K>) {
    forall i, j | 0 <= i < j < |s| :: less(s[i], s[j])
  }

  ghost function ToSet<K>(s: seq<K>): set<K> {
    set k | k in s
  }

  predicate IsLeast<K(==)>(less: (K, K) -> bool, m: K, s: set<K>) {
    m in s && forall k | k in s :: m == k || less(m, k)
  }

  predicate IsGreatest<K(==)>(less: (K, K) -> bool, m: K, s: set<K>) {
    m in s && forall k | k in s :: k == m || less(k, m)
  }

  lemma {:induction false} LeastExists<K(!new)>(less: (K, K) -> bool, s: set<K>)
    requires StrictOrder(less) && s != {}
    ensures exists m | m in s :: IsLeast(less, m, s)
    decreases |s|
  {
    assert Opened(0);
    var x :| x in s;
    if s == {x} {
      assert IsLeast(less, x, s);
    } else {
      var rest := s - {x};
      LeastExists(less, rest);
      var m :| m in rest && IsLeast(less, m, rest);
      var least := if less(x, m) then x else m;
      forall k | k in s ensures least == k || less(least, k) {
        assert k == x || k in rest;
        assert less(x, m) || x == m || less(m, x);
      }
      assert IsLeast(less, least, s);
    }
  }

  lemma GreatestExists<K(!new)>(less: (K, K) -> bool, s: set<K>)
    requires StrictOrder(less) && s != {}
    ensures exists m | m in s :: IsGreatest(less, m, s)
  {
    assert Opened(0);
    var reversed := (a, b) => less(b, a);
    LeastExists(reversed, s);
    var m :| m in s && IsLeast(reversed, m, s);
    assert IsGreatest(less, m, s);
  }

  /** `r` lists the keys of `s` in ascending order, each once. */
  ghost predicate IsSortedForm<K(!new)>(less: (K, K) -> bool, s: set<K>, r: seq<K>) {
    forall i: int {:trigger Opened(i)} | Opened(i) :: ToSet(r) == s && Ascending(less, r)
  }

  lemma {:induction false} SortForm<K(!new)>(less: (K, K) -> bool, s: set<K>) returns (r: seq<K>)
    requires StrictOrder(less)
    ensures |r| == |s| && ToSet(r) == s && Ascending(less, r)
    decreases |s|
  {
    if s == {} {
      r := [];
    } else {
      LeastExists(less, s);
      var m :| m in s && IsLeast(less, m, s);
      var rest := SortForm(less, s - {m});
      ConsAscending(less, m, rest);
      r := [m] + rest;
    }
  }

  lemma SortedFormExists<K(!new)>(less: (K, K) -> bool, s: set<K>)
    requires StrictOrder(less)
    ensures exists r: seq<K> :: |r| == |s| && IsSortedForm(less, s, r)
  {
    var r := SortForm(less, s);
    assert IsSortedForm(less, s, r);
  }

  /** The keys of `s` in ascending order. */
  ghost function Sorted<K(!new)>(less: (K, K) -> bool, s: set<K>): (r: seq<K>)
    requires StrictOrder(less)
    ensures |r| == |s|
  {
    SortedFormExists(less, s);
    var r: seq<K> :| |r| == |s| && IsSortedForm(less, s, r);
    r
  }

  lemma SortedIsSorted<K(!new)>(less: (K, K) -> bool, s: set<K>)
    requires StrictOrder(less)
    ensures ToSet(Sorted(less, s)) == s && Ascending(less, Sorted(less, s))
  {
    assert Opened(0);
  }

  lemma ConsAscending<K(!new)>(less: (K, K) -> bool, m: K, rest: seq<K>)
    requires Ascending(less, rest)
    requires forall k | k in ToSet(rest) :: less(m, k)
    ensures Ascending(less, [m] + rest)
    ensures ToSet([m] + rest) == {m} + ToSet(rest)
  {
  }

  lemma {:induction false} AscendingHasNoDuplicates<K(!new)>(less: (K, K) -> bool, r: seq<K>)
    requires StrictOrder(less) && Ascending(less, r)
    ensures |ToSet(r)| == |r|
  {
    assert Opened(0);
    if r != [] {
      var init, last := r[..|r| - 1], r[|r| - 1];
      AscendingHasNoDuplicates(less, init);
      assert r == init + [last];
      assert last !in init;
      assert ToSet(r) == ToSet(init) + {last};
    }
  }

  lemma TailSet<K(!new)>(less: (K, K) -> bool, r: seq<K>)
    requires StrictOrder(less) && Ascending(less, r) && r != []
    ensures ToSet(r[1..]) == ToSet(r) - {r[0]} && Ascending(less, r[1..])
    ensures IsLeast(less, r[0], ToSet(r))
  {
    assert Opened(0);
    assert r == [r[0]] + r[1..];
    assert r[0] !in r[1..];
  }

  /** Ascending order determines the sequence: there is one sorted form of a set. */
  lemma {:induction false} AscendingIsUnique<K(!new)>(less: (K, K) -> bool, a: seq<K>, b: seq<K>)
    requires StrictOrder(less) && Ascending(less, a) && Ascending(less, b) && ToSet(a) == ToSet(b)
    ensures a == b
  {
    assert Opened(0);
    AscendingHasNoDuplicates(less, a);
    AscendingHasNoDuplicates(less, b);
    if a != [] {
      TailSet(less, a);
      TailSet(less, b);
      AscendingIsUnique(less, a[1..], b[1..]);
      assert a == [a[0]] + a[1..] && b == [b[0]] + b[1..];
    }
  }

  lemma SortedIsUnique<K(!new)>(less: (K, K) -> bool, s: set<K>, r: seq<K>)
    requires StrictOrder(less) && Ascending(less, r) && ToSet(r) == s
    ensures Sorted(less, s) == r
  {
    SortedIsSorted(less, s);
    AscendingIsUnique(less, Sorted(less, s), r);
  }

  function Least(a: nat, b: nat): nat {
    if a < b then a else b
  }

  /** `less`, named so that facts about all pairs are used only for the pairs a proof mentions. */
  ghost predicate Precedes<K>(less: (K, K) -> bool, x: K, y: K) {
    less(x, y)
  }

  /** `t` holds the `n` smallest keys of `s`, or all of them when there are fewer. */
  ghost predicate AreSmallest<K(!new)>(less: (K, K) -> bool, t: set<K>, s: set<K>, n: nat) {
    forall i: int {:trigger Opened(i)} | Opened(i) :: HoldsSmallest(less, t, s, n)
  }

  ghost predicate HoldsSmallest<K(!new)>(less: (K, K) -> bool, t: set<K>, s: set<K>, n: nat) {
    && t <= s
    && |t| <= n
    && (|t| < n ==> t == s)
    && forall x, y {:trigger Precedes(less, x, y)} | x in t && y in s && y !in t :: Precedes(less, x, y)
  }

  /** "Sort every key and cut": the reference for what one page may hold. */
  ghost function Smallest<K(!new)>(less: (K, K) -> bool, s: set<K>, n: nat): set<K>
    requires StrictOrder(less)
  {
    ToSet(Sorted(less, s)[..Least(n, |s|)])
  }

  lemma PrefixIsSmallest<K(!new)>(less: (K, K) -> bool, r: seq<K>, n: nat)
    requires StrictOrder(less) && Ascending(less, r) && n <= |r|
    ensures ToSet(r[..n]) <= ToSet(r) && |ToSet(r[..n])| == n
    ensures forall x, y | x in ToSet(r[..n]) && y in ToSet(r) && y !in ToSet(r[..n]) :: less(x, y)
  {
    assert Opened(0);
    var cut := r[..n];
    AscendingHasNoDuplicates(less, cut);
    forall k | 0 <= k < n ensures r[k] in ToSet(cut) {
      assert r[k] == cut[k];
    }
    forall x, y | x in ToSet(cut) && y in ToSet(r) && y !in ToSet(cut) ensures less(x, y) {
      var i :| 0 <= i < |cut| && cut[i] == x;
      var j :| 0 <= j < |r| && r[j] == y;
      assert i < n <= j;
    }
    assert forall x | x in cut :: x in r;
  }

  lemma SmallestAreSmallest<K(!new)>(less: (K, K) -> bool, s: set<K>, n: nat)
    requires StrictOrder(less)
    ensures AreSmallest(less, Smallest(less, s, n), s, n)
  {
    SortedIsSorted(less, s);
    PrefixIsSmallest(less, Sorted(less, s), Least(n, |s|));
  }

  lemma SmallestSorted<K(!new)>(less: (K, K) -> bool, s: set<K>, n: nat)
    requires StrictOrder(less)
    ensures Sorted(less, Smallest(less, s, n)) == Sorted(less, s)[..Least(n, |s|)]
  {
    SortedIsSorted(less, s);
    var cut := Sorted(less, s)[..Least(n, |s|)];
    SortedIsUnique(less, ToSet(cut), cut);
  }

  lemma SameSizeNested<K>(a: set<K>, b: set<K>)
    requires (a <= b || b <= a) && |a| == |b|
    ensures a == b
  {
    assert a <= b ==> |b| == |a| + |b - a| by {
      assert a <= b ==> b == a + (b - a);
    }
    assert b <= a ==> |a| == |b| + |a - b| by {
      assert b <= a ==> a == b + (a - b);
    }
  }

  lemma SubsetSize<K>(a: set<K>, b: set<K>)
    requires a <= b
    ensures |a| <= |b|
  {
    assert b == a + (b - a);
  }

  lemma BiggerHasMore<K>(a: set<K>, b: set<K>)
    requires |a| < |b|
    ensures b - a != {}
  {
    if b - a == {} {
      assert b <= a by {
        forall x | x in b ensures x in a {
          assert x !in b - a;
        }
      }
      SubsetSize(b, a);
    }
  }

  lemma SmallestIsUnique<K(!new)>(less: (K, K) -> bool, t: set<K>, s: set<K>, n: nat)
    requires StrictOrder(less) && AreSmallest(less, t, s, n)
    ensures t == Smallest(less, s, n)
  {
    assert Opened(0);
    var u := Smallest(less, s, n);
    SmallestAreSmallest(less, s, n);
    if |t| == n {
      if !(t <= u) {
        var x :| x in t && x !in u;
        forall y | y in u ensures y in t {
          assert Precedes(less, y, x);
          assert !Precedes(less, x, y);
        }
        assert u <= t;
      }
      assert |u| <= n;
      assert |u| < n ==> u == s;
      assert t <= u || u <= t;
      SubsetSize(t, s);
      SameSizeNested(t, u);
    } else {
      SubsetSize(u, s);
    }
  }

  /** Sort and cut, in either form: the sorted cut is what any set of `n` smallest keys sorts to. */
  lemma SmallestSortsToCut<K(!new)>(less: (K, K) -> bool, t: set<K>, s: set<K>, n: nat)
    requires StrictOrder(less) && AreSmallest(less, t, s, n)
    ensures Sorted(less, t) == Sorted(less, s)[..Least(n, |s|)]
  {
    SmallestIsUnique(less, t, s, n);
    SmallestSorted(less, s, n);
  }

  /** Keys strictly after the resume marker. */
  ghost function After<K>(less: (K, K) -> bool, s: set<K>, marker: Option<K>): set<K> {
    set k | k in s && (marker.Some? ==> less(marker.value, k))
  }

  /** Dropping the largest of `n + 1` candidates is how a bounded accumulator absorbs a new key. */
  lemma SmallestAfterInsert<K(!new)>(less: (K, K) -> bool, t: set<K>, s: set<K>, n: nat, x: K)
    requires StrictOrder(less) && AreSmallest(less, t, s, n)
    ensures |t + {x}| <= n ==> AreSmallest(less, t + {x}, s + {x}, n)
    ensures forall m | |t + {x}| > n && IsGreatest(less, m, t + {x}) :: AreSmallest(less, t + {x} - {m}, s + {x}, n)
  {
    assert Opened(0);
    if x in t {
      assert t + {x} == t && s + {x} == s;
    } else {
      assert |t + {x}| == |t| + 1;
      forall m | |t + {x}| > n && IsGreatest(less, m, t + {x}) ensures AreSmallest(less, t + {x} - {m}, s + {x}, n) {
        SurplusDropped(less, t, s, n, x, m);
      }
    }
  }

  lemma SurplusDropped<K(!new)>(less: (K, K) -> bool, t: set<K>, s: set<K>, n: nat, x: K, m: K)
    requires StrictOrder(less) && AreSmallest(less, t, s, n)
    requires x !in t && |t| == n && IsGreatest(less, m, t + {x})
    ensures AreSmallest(less, t + {x} - {m}, s + {x}, n)
  {
    assert Opened(0);
    var now := t + {x} - {m};
    assert |now| == n;
    forall a, b | a in now && b in s + {x} && b !in now ensures Precedes(less, a, b) {
      if b != m {
        assert Precedes(less, m, b) || !Precedes(less, m, b);
        assert Precedes(less, a, b) || !Precedes(less, a, b);
      }
    }
  }

  /** `held` is what an accumulator of `n` keys keeps of all the keys it has `seen`. */
  ghost predicate Keeps<K(!new)>(less: (K, K) -> bool, held: set<K>, seen: set<K>, marker: Option<K>, n: nat) {
    AreSmallest(less, held, After(less, seen, marker), n)
  }

  lemma KeepsAfterInsert<K(!new)>(less: (K, K) -> bool, held: set<K>, seen: set<K>, marker: Option<K>, n: nat, x: K)
    requires StrictOrder(less) && Keeps(less, held, seen, marker, n)
    requires marker.Some? ==> less(marker.value, x)
    ensures |held + {x}| <= n ==> Keeps(less, held + {x}, seen + {x}, marker, n)
    ensures forall m | |held + {x}| > n && IsGreatest(less, m, held + {x}) :: Keeps(less, held + {x} - {m}, seen + {x}, marker, n)
  {
    assert Opened(0);
    assert After(less, seen + {x}, marker) == After(less, seen, marker) + {x};
    SmallestAfterInsert(less, held, After(less, seen, marker), n, x);
  }

  function FirstKey<K(==,!new)>(less: (K, K) -> bool, s: set<K>): (m: K)
    requires StrictOrder(less) && s != {}
    ensures IsLeast(less, m, s)
  {
    LeastExists(less, s);
    assert Opened(0);
    var m :| m in s && IsLeast(less, m, s);
    m
  }

  function LastKey<K(==,!new)>(less: (K, K) -> bool, s: set<K>): (m: K)
    requires StrictOrder(less) && s != {}
    ensures IsGreatest(less, m, s)
  {
    GreatestExists(less, s);
    assert Opened(0);
    var m :| m in s && IsGreatest(less, m, s);
    m
  }
}
