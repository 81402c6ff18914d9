/**
 * `OrderBy(i => i.T)` on a list of intersections: a stable sort by the
 * parameter t. LINQ's `OrderBy` is documented stable; the model is an
 * insertion sort that keeps equal keys in their original order, and its
 * stability is stated as "for every key, the entries with that key appear
 * in the same order before and after".
 */
module Ordering {
  import opened Spheres

  /** Non-decreasing in t. */
  predicate Sorted(xs: seq<Intersection>) {
    forall i, j :: 0 <= i < j < |xs| ==> xs[i].t <= xs[j].t
  }

  /** The entries whose t is exactly k, in their order in xs. */
  function WithT(xs: seq<Intersection>, k: real): (r: seq<Intersection>)
    ensures |r| <= |xs|
    ensures forall i :: 0 <= i < |r| ==> r[i].t == k
  {
    if |xs| == 0 then []
    else if xs[0].t == k then [xs[0]] + WithT(xs[1..], k)
    else WithT(xs[1..], k)
  }

  /**
   * Puts x in front of the first entry whose t is not smaller than x's:
   * every entry it passes has a strictly smaller t, so x lands before all
   * entries that share its key.
   */
  function Insert(x: Intersection, ys: seq<Intersection>): seq<Intersection> {
    if |ys| == 0 then [x]
    else if x.t <= ys[0].t then [x] + ys
    else [ys[0]] + Insert(x, ys[1..])
  }

  /** The sort: each entry inserted, last first, into the sorted rest. */
  function Sort(xs: seq<Intersection>): seq<Intersection> {
    if |xs| == 0 then [] else Insert(xs[0], Sort(xs[1..]))
  }

  // ------------------------------------------------------------------ facts

  /** Inserting adds x and nothing else: the result is a permutation of x and ys. */
  lemma {:induction false} InsertContents(x: Intersection, ys: seq<Intersection>)
    ensures multiset(Insert(x, ys)) == multiset(ys) + multiset{x}
    ensures forall e :: e in Insert(x, ys) <==> e == x || e in ys
    decreases |ys|
  {
    if |ys| > 0 && x.t > ys[0].t {
      InsertContents(x, ys[1..]);
      assert ys == [ys[0]] + ys[1..];
    }
  }

  /** Inserting into a sorted list keeps it sorted. */
  lemma {:induction false} InsertSorted(x: Intersection, ys: seq<Intersection>)
    requires Sorted(ys)
    ensures Sorted(Insert(x, ys))
    decreases |ys|
  {
    if |ys| > 0 && x.t > ys[0].t {
      InsertSorted(x, ys[1..]);
      InsertContents(x, ys[1..]);
      var rest := Insert(x, ys[1..]);
      forall i | 0 <= i < |rest| ensures ys[0].t <= rest[i].t {
        assert rest[i] in rest;
        if rest[i] != x {
          var j :| 0 <= j < |ys[1..]| && ys[1..][j] == rest[i];
          assert ys[j + 1] == rest[i];
        }
      }
    }
  }

  /** Inserting x puts it ahead of every entry that shares its key, and leaves the others' order alone. */
  lemma {:induction false} WithTInsert(x: Intersection, ys: seq<Intersection>, k: real)
    ensures WithT(Insert(x, ys), k) == if x.t == k then [x] + WithT(ys, k) else WithT(ys, k)
    decreases |ys|
  {
    if |ys| == 0 {
    } else if x.t <= ys[0].t {
      assert ([x] + ys)[1..] == ys;
    } else {
      WithTInsert(x, ys[1..], k);
      assert ([ys[0]] + Insert(x, ys[1..]))[1..] == Insert(x, ys[1..]);
    }
  }

  /** Stability: for every key, the entries with that key keep their relative order. */
  lemma {:induction false} SortStable(xs: seq<Intersection>, k: real)
    ensures WithT(Sort(xs), k) == WithT(xs, k)
    decreases |xs|
  {
    if |xs| > 0 {
      SortStable(xs[1..], k);
      WithTInsert(xs[0], Sort(xs[1..]), k);
    }
  }

  /** The sort orders by t and is a permutation of its input. */
  lemma SortSpec(xs: seq<Intersection>)
    ensures Sorted(Sort(xs))
    ensures multiset(Sort(xs)) == multiset(xs)
  {
    SortSorted(xs);
    SortPermutes(xs);
  }

  lemma {:induction false} SortSorted(xs: seq<Intersection>)
    ensures Sorted(Sort(xs))
    decreases |xs|
  {
    if |xs| > 0 {
      SortSorted(xs[1..]);
      InsertSorted(xs[0], Sort(xs[1..]));
    }
  }

  lemma {:induction false} SortPermutes(xs: seq<Intersection>)
    ensures multiset(Sort(xs)) == multiset(xs)
    decreases |xs|
  {
    if |xs| > 0 {
      var x, rest := xs[0], xs[1..];
      SortPermutes(rest);
      InsertContents(x, Sort(rest));
      assert xs == [x] + rest;
    }
  }

  /** Sorting a list with one more entry in front is inserting that entry into the sorted rest. */
  lemma SortCons(x: Intersection, xs: seq<Intersection>)
    ensures Sort([x] + xs) == Insert(x, Sort(xs))
  {
    assert ([x] + xs)[1..] == xs;
  }

  /** The sort keeps the length. */
  lemma SortLength(xs: seq<Intersection>)
    ensures |Sort(xs)| == |xs|
  {
    SortSpec(xs);
    assert |multiset(Sort(xs))| == |multiset(xs)|;
  }

  /** An entry with key k shows up in the entries with key k, and only such entries do. */
  lemma {:induction false} WithTNonempty(xs: seq<Intersection>, k: real)
    ensures |WithT(xs, k)| > 0 <==> exists i :: 0 <= i < |xs| && xs[i].t == k
    decreases |xs|
  {
    if |xs| > 0 {
      WithTNonempty(xs[1..], k);
      if exists i :: 0 <= i < |xs| && xs[i].t == k {
        var i :| 0 <= i < |xs| && xs[i].t == k;
        if i > 0 {
          assert xs[1..][i - 1].t == k;
        }
      }
      if exists i :: 0 <= i < |xs[1..]| && xs[1..][i].t == k {
        var i :| 0 <= i < |xs[1..]| && xs[1..][i].t == k;
        assert xs[i + 1].t == k;
      }
    }
  }

  /** Two lists with the same entries under every key are both empty or both not. */
  lemma SameKeysEmpty(ys: seq<Intersection>, zs: seq<Intersection>)
    requires forall k :: WithT(ys, k) == WithT(zs, k)
    ensures |ys| == 0 <==> |zs| == 0
  {
    if |ys| > 0 {
      assert WithT(ys, ys[0].t) != [];
    }
    if |zs| > 0 {
      assert WithT(zs, zs[0].t) != [];
    }
  }

  /**
   * Sortedness and stability pin the result down: two sorted lists with
   * the same entries per key, in the same order, are the same list.
   */
  lemma {:induction false} SortedStableUnique(ys: seq<Intersection>, zs: seq<Intersection>)
    requires Sorted(ys) && Sorted(zs)
    requires forall k :: WithT(ys, k) == WithT(zs, k)
    ensures ys == zs
    decreases |ys|
  {
    SameKeysEmpty(ys, zs);
    if |ys| > 0 {
      var m, n := ys[0].t, zs[0].t;
      WithTNonempty(ys, n);
      WithTNonempty(zs, m);
      assert WithT(ys, n) == WithT(zs, n);
      assert WithT(ys, m) == WithT(zs, m);
      assert n == m;
      assert ys[0] == WithT(ys, m)[0] == WithT(zs, m)[0] == zs[0];
      forall k ensures WithT(ys[1..], k) == WithT(zs[1..], k) {
        assert WithT(ys, k) == WithT(zs, k);
        if m == k {
          assert WithT(ys, k)[1..] == WithT(ys[1..], k);
          assert WithT(zs, k)[1..] == WithT(zs[1..], k);
        }
      }
      SortedStableUnique(ys[1..], zs[1..]);
      assert ys == [ys[0]] + ys[1..];
      assert zs == [zs[0]] + zs[1..];
    }
  }

  /** `Sort` is the one sorted, stable arrangement of xs. */
  lemma SortCharacterised(xs: seq<Intersection>, ys: seq<Intersection>)
    requires Sorted(ys) && forall k :: WithT(ys, k) == WithT(xs, k)
    ensures ys == Sort(xs)
  {
    forall k ensures WithT(ys, k) == WithT(Sort(xs), k) {
      SortStable(xs, k);
    }
    SortSpec(xs);
    SortedStableUnique(ys, Sort(xs));
  }
}
