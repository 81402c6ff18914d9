/**
 * `IntersectionExtensions.Hit`: of the intersections with t > 0, the one
 * with the lowest t, the earliest in the list among equals; `null`
 * (here `None`) when there is none.
 */
module Hits {
  import opened Wrappers
  import opened Spheres
  import opened Ordering

  /** `Where(s => s.T > 0)`. */
  function Positive(xs: seq<Intersection>): (r: seq<Intersection>)
    ensures forall e :: e in r <==> e in xs && e.t > 0.0
  {
    if |xs| == 0 then []
    else if xs[0].t > 0.0 then [xs[0]] + Positive(xs[1..])
    else Positive(xs[1..])
  }

  /**
   * `Where(T > 0).OrderBy(T)`, then the first candidate if there is any:
   * what it returns is an entry of the list with a positive t.
   */
  function Hit(xs: seq<Intersection>): (h: Option<Intersection>)
    ensures h.Some? ==> h.value in xs && h.value.t > 0.0
  {
    var candidates := Sort(Positive(xs));
    SortSpec(Positive(xs));
    if |candidates| > 0 then
      assert candidates[0] in multiset(candidates);
      Some(candidates[0])
    else None
  }

  /**
   * The entry at i is the hit: its t is positive, no positive t in the list
   * is lower, and no earlier entry has the same t.
   */
  predicate IsHitAt(xs: seq<Intersection>, i: int)
    requires 0 <= i < |xs|
  {
    && xs[i].t > 0.0
    && (forall j :: 0 <= j < |xs| && xs[j].t > 0.0 ==> xs[i].t <= xs[j].t)
    && (forall j :: 0 <= j < i ==> xs[j].t != xs[i].t)
  }

  predicate IsHit(xs: seq<Intersection>, h: Intersection) {
    exists i :: 0 <= i < |xs| && xs[i] == h && IsHitAt(xs, i)
  }

  predicate NoPositive(xs: seq<Intersection>) {
    forall i :: 0 <= i < |xs| ==> xs[i].t <= 0.0
  }

  /**
   * A one-pass reference: walk the list from the back, keeping the current
   * best, and let an entry replace it when its t is positive and not above
   * the best's, so the earliest of equals wins.
   */
  function HitRef(xs: seq<Intersection>): (h: Option<Intersection>)
    ensures h.None? <==> NoPositive(xs)
    ensures h.Some? ==> IsHit(xs, h.value)
  {
    if |xs| == 0 then None
    else
      var rest := HitRef(xs[1..]);
      assert forall j :: 1 <= j < |xs| ==> xs[j] == xs[1..][j - 1];
      if xs[0].t > 0.0 && (rest.None? || xs[0].t <= rest.value.t) then
        assert IsHitAt(xs, 0);
        Some(xs[0])
      else
        assert rest.Some? ==> exists i :: 1 <= i < |xs| && xs[i] == rest.value && IsHitAt(xs, i) by {
          if rest.Some? {
            var i :| 0 <= i < |xs[1..]| && xs[1..][i] == rest.value && IsHitAt(xs[1..], i);
            assert xs[i + 1] == rest.value && IsHitAt(xs, i + 1);
          }
        }
        rest
  }

  // ------------------------------------------------------------------ facts

  /** The hit, when there is one, sits at one index only. */
  lemma HitAtUnique(xs: seq<Intersection>, i: int, j: int)
    requires 0 <= i < |xs| && 0 <= j < |xs| && IsHitAt(xs, i) && IsHitAt(xs, j)
    ensures i == j
  {
    assert xs[i].t <= xs[j].t && xs[j].t <= xs[i].t;
  }

  /** Of the entries with t = k > 0, the positive filter drops none and keeps their order. */
  lemma {:induction false} WithTPositive(xs: seq<Intersection>, k: real)
    requires k > 0.0
    ensures WithT(Positive(xs), k) == WithT(xs, k)
    decreases |xs|
  {
    if |xs| > 0 {
      WithTPositive(xs[1..], k);
      if xs[0].t > 0.0 {
        assert ([xs[0]] + Positive(xs[1..]))[1..] == Positive(xs[1..]);
      }
    }
  }

  /** The first entry with key k is the first entry of the list whose t is k. */
  lemma {:induction false} WithTFirst(xs: seq<Intersection>, k: real)
    requires |WithT(xs, k)| > 0
    ensures exists i :: 0 <= i < |xs| && xs[i] == WithT(xs, k)[0] && xs[i].t == k
                        && forall j :: 0 <= j < i ==> xs[j].t != k
    decreases |xs|
  {
    if xs[0].t != k {
      WithTFirst(xs[1..], k);
      var i :| 0 <= i < |xs[1..]| && xs[1..][i] == WithT(xs[1..], k)[0] && xs[1..][i].t == k
               && forall j :: 0 <= j < i ==> xs[1..][j].t != k;
      assert xs[i + 1] == WithT(xs, k)[0];
      forall j | 0 <= j < i + 1 ensures xs[j].t != k {
        if j > 0 {
          assert xs[j] == xs[1..][j - 1];
        }
      }
    }
  }

  /** `Hit` returns nothing exactly when no entry has a positive t. */
  lemma HitNone(xs: seq<Intersection>)
    ensures Hit(xs).None? <==> NoPositive(xs)
  {
    var p := Positive(xs);
    SortLength(p);
    SortSpec(p);
    if !NoPositive(xs) {
      var i :| 0 <= i < |xs| && xs[i].t > 0.0;
      assert xs[i] in xs;
      assert xs[i] in p;
    }
    if |p| > 0 {
      assert p[0] in p;
    }
  }

  /**
   * What `Hit` returns is the hit: a positive-t entry of the list, no
   * positive t below it, and the earliest of its equals (`OrderBy` is
   * stable).
   */
  lemma HitIsHit(xs: seq<Intersection>)
    requires Hit(xs).Some?
    ensures IsHit(xs, Hit(xs).value)
  {
    var p := Positive(xs);
    var c := Sort(p);
    SortSpec(p);
    var h := c[0];
    var m := h.t;
    assert h in multiset(c);
    assert h in p;
    forall j | 0 <= j < |xs| && xs[j].t > 0.0 ensures m <= xs[j].t {
      assert xs[j] in xs;
      assert xs[j] in multiset(p);
      var k :| 0 <= k < |c| && c[k] == xs[j];
      assert k == 0 || c[0].t <= c[k].t;
    }
    SortStable(p, m);
    WithTPositive(xs, m);
    assert WithT(c, m)[0] == h;
    WithTFirst(xs, m);
  }

  /** `IsHit` describes `Hit` completely: an entry is the hit exactly when `Hit` returns it. */
  lemma HitCharacterised(xs: seq<Intersection>, h: Intersection)
    ensures Hit(xs) == Some(h) <==> IsHit(xs, h)
  {
    HitNone(xs);
    if Hit(xs) == Some(h) {
      HitIsHit(xs);
    }
    if IsHit(xs, h) {
      var i :| 0 <= i < |xs| && xs[i] == h && IsHitAt(xs, i);
      HitIsHit(xs);
      var j :| 0 <= j < |xs| && xs[j] == Hit(xs).value && IsHitAt(xs, j);
      HitAtUnique(xs, i, j);
    }
  }

  /** The sort-based `Hit` and the one-pass reference agree on every list. */
  lemma HitMatchesReference(xs: seq<Intersection>)
    ensures Hit(xs) == HitRef(xs)
  {
    HitNone(xs);
    if HitRef(xs).Some? {
      HitCharacterised(xs, HitRef(xs).value);
    }
  }

  /** Entries with t <= 0 never matter: the hit of the list is the hit of its positive part. */
  lemma HitIgnoresNonPositive(xs: seq<Intersection>)
    ensures Hit(xs) == Hit(Positive(xs))
  {
    assert Positive(Positive(xs)) == Positive(xs) by {
      PositiveIdempotent(xs);
    }
  }

  lemma {:induction false} PositiveIdempotent(xs: seq<Intersection>)
    ensures Positive(Positive(xs)) == Positive(xs)
    decreases |xs|
  {
    if |xs| > 0 {
      PositiveIdempotent(xs[1..]);
      if xs[0].t > 0.0 {
        assert ([xs[0]] + Positive(xs[1..]))[1..] == Positive(xs[1..]);
      }
    }
  }

  /**
   * An intersection at t = 0 (the ray starting on a surface) is never the
   * hit of any list, although the comment above the filter speaks of the
   * lowest "nonnegative" t.
   */
  lemma HitSkipsZero(xs: seq<Intersection>)
    ensures Hit(xs).Some? ==> Hit(xs).value.t != 0.0
  {
    if Hit(xs).Some? {
      HitIsHit(xs);
    }
  }

  /** So a ray that starts on a sphere and meets it only there has no hit. */
  lemma HitSkipsZeroAlone(s: Sphere)
    ensures Hit([Intersection(s, 0.0)]) == None
    ensures Hit([Intersection(s, 0.0), Intersection(s, 0.0)]) == None
  {
    HitNone([Intersection(s, 0.0)]);
    HitNone([Intersection(s, 0.0), Intersection(s, 0.0)]);
  }

  // The hit tests, over any one sphere.

  lemma HitAllPositive(s: Sphere)
    ensures Hit([Intersection(s, 1.0), Intersection(s, 2.0)]) == Some(Intersection(s, 1.0))
  {
    var xs := [Intersection(s, 1.0), Intersection(s, 2.0)];
    assert IsHitAt(xs, 0);
    HitCharacterised(xs, xs[0]);
  }

  lemma HitSomeNegative(s: Sphere)
    ensures Hit([Intersection(s, -1.0), Intersection(s, 1.0)]) == Some(Intersection(s, 1.0))
  {
    var xs := [Intersection(s, -1.0), Intersection(s, 1.0)];
    assert IsHitAt(xs, 1);
    HitCharacterised(xs, xs[1]);
  }

  lemma HitAllNegative(s: Sphere)
    ensures Hit([Intersection(s, -2.0), Intersection(s, -1.0)]) == None
  {
    HitNone([Intersection(s, -2.0), Intersection(s, -1.0)]);
  }

  lemma HitLowestPositive(s: Sphere)
    ensures Hit([Intersection(s, 5.0), Intersection(s, 7.0), Intersection(s, -3.0), Intersection(s, 2.0)])
         == Some(Intersection(s, 2.0))
  {
    var xs := [Intersection(s, 5.0), Intersection(s, 7.0), Intersection(s, -3.0), Intersection(s, 2.0)];
    assert IsHitAt(xs, 3);
    HitCharacterised(xs, xs[3]);
  }
}
