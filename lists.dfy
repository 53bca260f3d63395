/**
 * The array methods the application composes its list computations from:
 * `map`, `filter`, de-duplication through a `Set`, `sort` and `slice`.
 */
module Lists {

  /** No element occurs twice. */
  predicate NoDup<T(==)>(s: seq<T>) {
    forall i, j :: 0 <= i < j < |s| ==> s[i] != s[j]
  }

  /** `a` is obtained from `b` by deleting elements (the rest keep their order). */
  predicate Subseq<T(==)>(a: seq<T>, b: seq<T>)
    decreases |b|
  {
    if a == [] then true
    else if b == [] then false
    else if a[0] == b[0] then Subseq(a[1..], b[1..])
    else Subseq(a, b[1..])
  }

  /** `s.map(f)`. */
  function Map<A, B>(s: seq<A>, f: A -> B): (r: seq<B>)
    ensures |r| == |s|
    ensures forall i :: 0 <= i < |s| ==> r[i] == f(s[i])
  {
    if s == [] then [] else [f(s[0])] + Map(s[1..], f)
  }

  /** `s.filter(p)`: the elements satisfying `p`, in their original order. */
  function Filter<T(==)>(s: seq<T>, p: T -> bool): (r: seq<T>)
    ensures |r| <= |s|
    ensures forall x | x in r :: x in s && p(x)
    ensures forall x | x in s && p(x) :: x in r
    ensures Subseq(r, s)
    ensures forall x | x in s :: multiset(r)[x] == (if p(x) then multiset(s)[x] else 0)
  {
    if s == [] then []
    else if p(s[0]) then
      assert s == [s[0]] + s[1..];
      [s[0]] + Filter(s[1..], p)
    else
      assert s == [s[0]] + s[1..];
      Filter(s[1..], p)
  }

  /** Filtering keeps a duplicate-free list duplicate-free. */
  lemma {:induction false} FilterNoDup<T>(s: seq<T>, p: T -> bool)
    requires NoDup(s)
    ensures NoDup(Filter(s, p))
  {
    if s != [] {
      assert NoDup(s[1..]) by {
        forall i, j | 0 <= i < j < |s[1..]| ensures s[1..][i] != s[1..][j] {
          assert s[1..][i] == s[i + 1] && s[1..][j] == s[j + 1];
        }
      }
      FilterNoDup(s[1..], p);
    }
  }

  /** Filtering a list with a predicate that every element satisfies changes nothing. */
  lemma {:induction false} FilterAll<T>(s: seq<T>, p: T -> bool)
    requires forall x :: x in s ==> p(x)
    ensures Filter(s, p) == s
  {
    if s != [] {
      FilterAll(s[1..], p);
    }
  }

  /** The position of the first occurrence of `x` in `s`. */
  function IndexOf<T(==)>(s: seq<T>, x: T): (k: nat)
    requires x in s
    ensures k < |s| && s[k] == x
    ensures forall j :: 0 <= j < k ==> s[j] != x
  {
    if s[0] == x then 0 else 1 + IndexOf(s[1..], x)
  }

  /** Appending an element does not move the first occurrence of one already present. */
  lemma IndexOfAppend<T>(s: seq<T>, x: T, y: T)
    requires y in s
    ensures IndexOf(s + [x], y) == IndexOf(s, y)
  {
    var k := IndexOf(s, y);
    assert (s + [x])[k] == y;
  }

  /**
   * `[...new Set(s)]`: each distinct element once, in first-seen order. The
   * result is duplicate-free and holds exactly the elements of `s`.
   */
  function Dedup<T(==)>(s: seq<T>): (r: seq<T>)
    ensures NoDup(r)
    ensures forall x | x in r :: x in s
    ensures forall x | x in s :: x in r
    ensures |r| <= |s|
    decreases |s|
  {
    if s == [] then []
    else
      var r := Dedup(s[..|s| - 1]);
      assert s == s[..|s| - 1] + [s[|s| - 1]];
      if s[|s| - 1] in r then r else r + [s[|s| - 1]]
  }

  /** First-seen order: the elements of `Dedup(s)` appear in the order of their first occurrence in `s`. */
  lemma {:induction false} DedupFirstSeenOrder<T>(s: seq<T>)
    ensures forall i, j :: 0 <= i < j < |Dedup(s)| ==> IndexOf(s, Dedup(s)[i]) < IndexOf(s, Dedup(s)[j])
    decreases |s|
  {
    if s != [] {
      var p, x := s[..|s| - 1], s[|s| - 1];
      assert s == p + [x];
      DedupFirstSeenOrder(p);
      var r := Dedup(p);
      forall y | y in r ensures IndexOf(s, y) == IndexOf(p, y) < |p| {
        IndexOfAppend(p, x, y);
      }
      if x !in r {
        assert x !in p;
        assert IndexOf(s, x) == |p|;
      }
    }
  }

  /** A duplicate-free list is its own de-duplication. */
  lemma {:induction false} DedupNoDup<T>(s: seq<T>)
    requires NoDup(s)
    ensures Dedup(s) == s
    decreases |s|
  {
    if s != [] {
      var p := s[..|s| - 1];
      assert NoDup(p);
      DedupNoDup(p);
      assert s[|s| - 1] !in p;
      assert s == p + [s[|s| - 1]];
    }
  }

  /** De-duplicating `a + b` for a duplicate-free `a` keeps `a` as it is, in front. */
  lemma {:induction false} DedupKeepsPrefix<T>(a: seq<T>, b: seq<T>)
    requires NoDup(a)
    ensures |a| <= |Dedup(a + b)| && Dedup(a + b)[..|a|] == a
    decreases |b|
  {
    if b == [] {
      assert a + b == a;
      DedupNoDup(a);
    } else {
      var b' := b[..|b| - 1];
      DedupKeepsPrefix(a, b');
      assert (a + b)[..|a + b| - 1] == a + b';
    }
  }

  /** Non-increasing by `key`. */
  predicate SortedDesc<T>(s: seq<T>, key: T -> int) {
    forall i, j :: 0 <= i < j < |s| ==> key(s[i]) >= key(s[j])
  }

  /** Inserts `x` into a list sorted by non-increasing `key`, after the elements with a greater key. */
  function InsertDesc<T(==)>(x: T, s: seq<T>, key: T -> int): (r: seq<T>)
    requires SortedDesc(s, key)
    ensures SortedDesc(r, key)
    ensures multiset(r) == multiset(s) + multiset{x}
  {
    if s == [] then [x]
    else if key(s[0]) > key(x) then
      var t := InsertDesc(x, s[1..], key);
      assert s == [s[0]] + s[1..];
      HeadDominates(s[0], x, s[1..], t, key);
      assert multiset([s[0]] + t) == multiset{s[0]} + multiset(t);
      [s[0]] + t
    else
      PrependSorted(x, s, key);
      [x] + s
  }

  /** An element that outranks the head of a sorted list can be put in front of it. */
  lemma PrependSorted<T>(x: T, s: seq<T>, key: T -> int)
    requires SortedDesc(s, key) && s != [] && key(x) >= key(s[0])
    ensures SortedDesc([x] + s, key)
  {
    forall i, j | 0 <= i < j < |[x] + s| ensures key(([x] + s)[i]) >= key(([x] + s)[j]) {
      assert ([x] + s)[j] == s[j - 1];
      if i > 0 {
        assert ([x] + s)[i] == s[i - 1];
      }
    }
  }

  /** The head of a sorted list, when it outranks `x`, outranks everything `x` is inserted among. */
  lemma HeadDominates<T>(h: T, x: T, s: seq<T>, t: seq<T>, key: T -> int)
    requires SortedDesc([h] + s, key) && key(h) > key(x)
    requires SortedDesc(t, key) && multiset(t) == multiset(s) + multiset{x}
    ensures SortedDesc([h] + t, key)
  {
    forall y | y in t ensures key(h) >= key(y) {
      assert y in multiset(t);
      if y != x {
        assert y in s;
        var i :| 0 <= i < |s| && s[i] == y;
        assert ([h] + s)[0] == h && ([h] + s)[i + 1] == y;
      }
    }
    forall i, j | 0 <= i < j < |[h] + t| ensures key(([h] + t)[i]) >= key(([h] + t)[j]) {
      if i > 0 {
        assert ([h] + t)[i] == t[i - 1] && ([h] + t)[j] == t[j - 1];
      } else {
        assert ([h] + t)[j] == t[j - 1] && t[j - 1] in t;
      }
    }
  }

  /**
   * `[...s].sort((a, b) => key(b) - key(a))`: a rearrangement of `s` in
   * non-increasing order of `key` (insertion sort, which is stable like the
   * engine's sort).
   */
  function SortDesc<T(==)>(s: seq<T>, key: T -> int): (r: seq<T>)
    ensures SortedDesc(r, key)
    ensures multiset(r) == multiset(s)
  {
    if s == [] then []
    else
      assert s == [s[0]] + s[1..];
      InsertDesc(s[0], SortDesc(s[1..], key), key)
  }

  function Min(a: int, b: int): int {
    if a <= b then a else b
  }

  /**
   * `s.slice(0, k)`: the first `min(k, |s|)` elements. The sort-then-slice
   * of a list is its top `k` by `key`: sorted, drawn from the list, and no
   * element left out ranks above the last one taken.
   */
  function TopByKey<T(==)>(s: seq<T>, k: nat, key: T -> int): (r: seq<T>)
    ensures |r| == Min(k, |s|)
    ensures SortedDesc(r, key)
    ensures multiset(r) <= multiset(s)
    ensures r != [] ==> forall y | y in multiset(s) - multiset(r) :: key(y) <= key(r[|r| - 1])
  {
    var sorted := SortDesc(s, key);
    assert |sorted| == |multiset(sorted)| == |multiset(s)| == |s|;
    SortedSplit(sorted, Min(k, |s|), key);
    sorted[..Min(k, |s|)]
  }

  /** Splitting a sorted list: the front is sorted and nothing behind it outranks its last element. */
  lemma SortedSplit<T>(sorted: seq<T>, n: nat, key: T -> int)
    requires SortedDesc(sorted, key) && n <= |sorted|
    ensures SortedDesc(sorted[..n], key)
    ensures multiset(sorted[..n]) <= multiset(sorted)
    ensures multiset(sorted) - multiset(sorted[..n]) == multiset(sorted[n..])
    ensures 0 < n ==> forall y | y in multiset(sorted[n..]) :: key(y) <= key(sorted[n - 1])
  {
    assert sorted == sorted[..n] + sorted[n..];
    forall y | y in multiset(sorted[n..]) && 0 < n ensures key(y) <= key(sorted[n - 1]) {
      assert y in sorted[n..];
      var i :| 0 <= i < |sorted[n..]| && sorted[n..][i] == y;
      assert sorted[n + i] == y;
    }
  }
}
