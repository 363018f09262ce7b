/** Intersection records, the `hit` search over a list of them, and ascending order by t,
    which groups and worlds use to sort what their members report. */
module Intersections {
  import opened Wrappers

  /** `Intersection(t, object)`: only t and the object (`obj`) are stored; any further argument a
      caller passes is dropped. */
  datatype Intersection<T> = Intersection(t: real, obj: T)

  /** `Number.MAX_VALUE`, the starting bound of the `hit` search: (2^53 - 1) * 2^971. */
  const MAX_VALUE: real := 179769313486231570814527423731704356798070567525844996598917476803157260780028538760589558632766878171540458953514382464234321326889464182768467546703537516986049910576551282076245490090389328944075868508455133942304583236903222948165808559332123348274797826204144723168738177180919299881250404026184124858368.0

  /** `intersections(...is)`: the arguments as a list, in the order given. */
  function Intersections<T>(xs: seq<Intersection<T>>): (r: seq<Intersection<T>>)
    ensures |r| == |xs| && forall i :: 0 <= i < |xs| ==> r[i] == xs[i]
  {
    xs
  }

  /** An element the `hit` search can select: t is non-negative and below the starting
      bound. */
  predicate Candidate<T>(x: Intersection<T>)
  {
    0.0 <= x.t < MAX_VALUE
  }

  /** Index k is the hit of xs: a candidate whose t is at most every other candidate's,
      and strictly below that of every candidate before it. */
  predicate IsHitAt<T>(xs: seq<Intersection<T>>, k: int)
  {
    0 <= k < |xs| && Candidate(xs[k])
    && (forall i :: 0 <= i < |xs| && Candidate(xs[i]) ==> xs[k].t <= xs[i].t)
    && (forall i :: 0 <= i < k && Candidate(xs[i]) ==> xs[k].t < xs[i].t)
  }

  /** `hit(is)`: the first intersection with the smallest t in [0, `Number.MAX_VALUE`), or
      nothing when no t lies in that range. The list is only read. */
  method Hit<T>(xs: seq<Intersection<T>>) returns (r: Option<Intersection<T>>)
    ensures r.None? <==> forall i :: 0 <= i < |xs| ==> !Candidate(xs[i])
    ensures r.Some? ==> exists k :: IsHitAt(xs, k) && r.value == xs[k]
  {
    var minT := MAX_VALUE;
    var minIndex := -1;
    var i := 0;
    while i < |xs|
      invariant 0 <= i <= |xs|
      invariant -1 <= minIndex < i
      invariant minIndex == -1 ==> minT == MAX_VALUE && forall j :: 0 <= j < i ==> !Candidate(xs[j])
      invariant minIndex >= 0 ==> Candidate(xs[minIndex]) && minT == xs[minIndex].t
      invariant minIndex >= 0 ==> IsHitAt(xs[..i], minIndex)
    {
      if xs[i].t >= 0.0 && xs[i].t < minT {
        HitBecomesLast(xs, i, minIndex);
        minT := xs[i].t;
        minIndex := i;
      } else if minIndex >= 0 {
        HitStays(xs, i, minIndex);
      } else {
        assert !Candidate(xs[i]);
      }
      i := i + 1;
    }
    if minIndex == -1 {
      r := None;
    } else {
      assert xs[..|xs|] == xs;
      assert IsHitAt(xs, minIndex);
      r := Some(xs[minIndex]);
    }
  }

  /** The first i + 1 elements have their hit at i when xs[i] is a candidate below the hit of
      the first i, or the first i hold no candidate. */
  lemma HitBecomesLast<T>(xs: seq<Intersection<T>>, i: nat, m: int)
    requires i < |xs| && -1 <= m < i && Candidate(xs[i])
    requires m == -1 ==> forall j :: 0 <= j < i ==> !Candidate(xs[j])
    requires m >= 0 ==> IsHitAt(xs[..i], m) && xs[i].t < xs[m].t
    ensures IsHitAt(xs[..i + 1], i)
  {
    var front := xs[..i + 1];
    forall j | 0 <= j < i && Candidate(front[j])
      ensures front[i].t < front[j].t
    {
      assert front[j] == xs[..i][j];
    }
  }

  /** The hit of the first i elements stays the hit of the first i + 1 when xs[i] is not a
      candidate below it. */
  lemma HitStays<T>(xs: seq<Intersection<T>>, i: nat, m: nat)
    requires i < |xs| && m < i && IsHitAt(xs[..i], m)
    requires !(Candidate(xs[i]) && xs[i].t < xs[m].t)
    ensures IsHitAt(xs[..i + 1], m)
  {
    var front := xs[..i + 1];
    forall j | 0 <= j < i + 1 && Candidate(front[j])
      ensures front[m].t <= front[j].t
    {
      if j < i {
        assert front[j] == xs[..i][j];
      }
    }
  }

  /** There is at most one hit. */
  lemma HitIsUnique<T>(xs: seq<Intersection<T>>, k1: int, k2: int)
    requires IsHitAt(xs, k1) && IsHitAt(xs, k2)
    ensures k1 == k2
  {
  }

  /** A hit exists exactly when some element is a candidate. */
  lemma {:induction false} HitExists<T>(xs: seq<Intersection<T>>)
    ensures (exists k :: IsHitAt(xs, k)) <==> exists i :: 0 <= i < |xs| && Candidate(xs[i])
  {
    if exists i :: 0 <= i < |xs| && Candidate(xs[i]) {
      if Candidate(xs[|xs| - 1]) && forall i :: 0 <= i < |xs| - 1 ==> !Candidate(xs[i]) {
        assert IsHitAt(xs, |xs| - 1);
      } else {
        var front := xs[..|xs| - 1];
        assert exists i :: 0 <= i < |front| && Candidate(front[i]) by {
          var i :| 0 <= i < |xs| && Candidate(xs[i]);
          if i == |xs| - 1 {
            var j :| 0 <= j < |xs| - 1 && Candidate(xs[j]);
            assert front[j] == xs[j];
          } else {
            assert front[i] == xs[i];
          }
        }
        HitExists(front);
        var k :| IsHitAt(front, k);
        var last := xs[|xs| - 1];
        if Candidate(last) && last.t < xs[k].t {
          assert IsHitAt(xs, |xs| - 1);
        } else {
          assert IsHitAt(xs, k);
        }
      }
    }
  }

  /** The examples of `hit`: (1, 2) gives the first, (-1, 1) the second, (-2, -1) nothing,
      and (5, 7, -3, 2) the last. */
  lemma HitExamples<T>(o: T)
    ensures IsHitAt([Intersection(1.0, o), Intersection(2.0, o)], 0)
    ensures IsHitAt([Intersection(-1.0, o), Intersection(1.0, o)], 1)
    ensures forall x :: x in [Intersection(-1.0, o), Intersection(-2.0, o)] ==> !Candidate(x)
    ensures IsHitAt([Intersection(5.0, o), Intersection(7.0, o), Intersection(-3.0, o), Intersection(2.0, o)], 3)
  {
  }

  /** Every intersection in xs is tagged with o. */
  ghost predicate AllTagged<T>(xs: seq<Intersection<T>>, o: T)
  {
    forall i :: 0 <= i < |xs| ==> xs[i].obj == o
  }

  /** Ascending by t, the order the sort comparator `a.t < b.t ? -1 : a.t > b.t ? 1 : 0`
      asks for. */
  predicate SortedByT<T>(xs: seq<Intersection<T>>)
  {
    forall i, j :: 0 <= i < j < |xs| ==> xs[i].t <= xs[j].t
  }

  /** x placed before the first element whose t is not below its own. */
  function InsertByT<T>(x: Intersection<T>, xs: seq<Intersection<T>>): (r: seq<Intersection<T>>)
    requires SortedByT(xs)
    ensures SortedByT(r) && multiset(r) == multiset(xs) + multiset{x}
  {
    if xs == [] then [x]
    else if x.t <= xs[0].t then [x] + xs
    else
      var rest := InsertByT(x, xs[1..]);
      InsertBehindHead(x, xs, rest);
      [xs[0]] + rest
  }

  /** When x goes behind the head of xs, the head followed by x inserted into the tail is
      sorted and holds xs and x. */
  lemma InsertBehindHead<T>(x: Intersection<T>, xs: seq<Intersection<T>>, rest: seq<Intersection<T>>)
    requires SortedByT(xs) && xs != [] && x.t > xs[0].t
    requires SortedByT(rest) && multiset(rest) == multiset(xs[1..]) + multiset{x}
    ensures SortedByT([xs[0]] + rest) && multiset([xs[0]] + rest) == multiset(xs) + multiset{x}
  {
    assert xs == [xs[0]] + xs[1..];
    forall k | 0 <= k < |rest| ensures xs[0].t <= rest[k].t {
      assert rest[k] in multiset(rest);
      if rest[k] != x {
        assert rest[k] in multiset(xs[1..]);
        var m :| 0 <= m < |xs[1..]| && xs[1..][m] == rest[k];
        assert xs[m + 1] == rest[k];
      }
    }
    var r := [xs[0]] + rest;
    forall i, j | 0 <= i < j < |r| ensures r[i].t <= r[j].t {
      if i > 0 {
        assert r[i] == rest[i - 1] && r[j] == rest[j - 1];
      }
    }
  }

  /** The list sorted ascending by t: `Array.prototype.sort` with the comparator above,
      taken as an insertion sort, which is stable as that sort is (SortByTStable). */
  function SortByT<T>(xs: seq<Intersection<T>>): (r: seq<Intersection<T>>)
    ensures SortedByT(r) && multiset(r) == multiset(xs)
  {
    if xs == [] then []
    else
      assert xs == [xs[0]] + xs[1..];
      InsertByT(xs[0], SortByT(xs[1..]))
  }

  /** A sorted permutation of a list keeps its length and elements. */
  lemma SortByTPermutes<T>(xs: seq<Intersection<T>>)
    ensures |SortByT(xs)| == |xs|
    ensures forall x :: x in xs <==> x in SortByT(xs)
  {
    var r := SortByT(xs);
    assert |multiset(r)| == |multiset(xs)|;
    forall x ensures x in xs <==> x in r {
      assert x in multiset(xs) <==> x in multiset(r);
    }
  }

  /** The elements of xs whose t is exactly t, in the order xs holds them. */
  function WithT<T>(xs: seq<Intersection<T>>, t: real): seq<Intersection<T>>
  {
    if xs == [] then []
    else (if xs[0].t == t then [xs[0]] else []) + WithT(xs[1..], t)
  }

  /** WithT(xs, t) holds exactly the elements of xs whose t is t. */
  lemma {:induction false} WithTMembers<T>(xs: seq<Intersection<T>>, t: real)
    ensures forall i :: 0 <= i < |WithT(xs, t)| ==> WithT(xs, t)[i] in xs && WithT(xs, t)[i].t == t
    ensures forall i :: 0 <= i < |xs| && xs[i].t == t ==> xs[i] in WithT(xs, t)
  {
    if xs != [] {
      WithTMembers(xs[1..], t);
      var h: seq<Intersection<T>> := if xs[0].t == t then [xs[0]] else [];
      var r := WithT(xs, t);
      assert r == h + WithT(xs[1..], t);
      forall i | 0 <= i < |r| ensures r[i] in xs && r[i].t == t {
        if i >= |h| {
          assert r[i] == WithT(xs[1..], t)[i - |h|];
          assert r[i] in xs[1..];
        }
      }
      forall i | 0 <= i < |xs| && xs[i].t == t ensures xs[i] in r {
        if i > 0 {
          assert xs[i] == xs[1..][i - 1];
        }
      }
    }
  }

  /** Inserting x puts it in front of every element of equal t, so among the elements of
      t equal to x's it comes first and the others keep their order. */
  lemma {:induction false} InsertByTStable<T>(x: Intersection<T>, ys: seq<Intersection<T>>, t: real)
    requires SortedByT(ys)
    ensures WithT(InsertByT(x, ys), t) == (if x.t == t then [x] else []) + WithT(ys, t)
  {
    var hx: seq<Intersection<T>> := if x.t == t then [x] else [];
    if ys == [] {
    } else if x.t <= ys[0].t {
      var r := [x] + ys;
      assert InsertByT(x, ys) == r;
      assert r[0] == x && r[1..] == ys;
      assert WithT(r, t) == hx + WithT(ys, t);
    } else {
      var tail := ys[1..];
      var hy: seq<Intersection<T>> := if ys[0].t == t then [ys[0]] else [];
      var rest := InsertByT(x, tail);
      var r := [ys[0]] + rest;
      assert r[0] == ys[0] && r[1..] == rest;
      calc {
        WithT(InsertByT(x, ys), t);
        { assert InsertByT(x, ys) == r; }
        WithT(r, t);
        hy + WithT(rest, t);
        { InsertByTStable(x, tail, t); }
        hy + (hx + WithT(tail, t));
        { SwapEmptyFront(hx, hy, WithT(tail, t)); }
        hx + (hy + WithT(tail, t));
        hx + WithT(ys, t);
      }
    }
  }

  /** Of two lists at most one of which is non-empty, either may go first. */
  lemma SwapEmptyFront<E>(p: seq<E>, q: seq<E>, w: seq<E>)
    requires p == [] || q == []
    ensures q + (p + w) == p + (q + w)
  {
    if p == [] {
      assert p + w == w && q + (p + w) == q + w;
    } else {
      assert q + w == w && q + (p + w) == p + w;
    }
  }

  /** The sort is stable: for every t, the elements with that t appear in the sorted list in
      the order the input holds them, as `Array.prototype.sort` guarantees. */
  lemma {:induction false} SortByTStable<T>(xs: seq<Intersection<T>>, t: real)
    ensures WithT(SortByT(xs), t) == WithT(xs, t)
  {
    if xs != [] {
      SortByTStable(xs[1..], t);
      InsertByTStable(xs[0], SortByT(xs[1..]), t);
    }
  }

  /** In a sorted non-empty list, the head has the least t of any element. */
  lemma HeadLeast<T>(a: seq<Intersection<T>>, x: Intersection<T>)
    requires SortedByT(a) && a != [] && x in a
    ensures a[0].t <= x.t
  {
    var k :| 0 <= k < |a| && a[k] == x;
  }

  /** The head of a non-empty list is in its own group. */
  lemma HeadGroupNonEmpty<T>(a: seq<Intersection<T>>)
    requires a != []
    ensures WithT(a, a[0].t) != []
  {
    assert WithT(a, a[0].t) == [a[0]] + WithT(a[1..], a[0].t);
  }

  /** Two sorted lists that agree on every WithT have the same head. */
  lemma SameHead<T>(a: seq<Intersection<T>>, b: seq<Intersection<T>>)
    requires SortedByT(a) && SortedByT(b) && a != [] && b != []
    requires forall t :: WithT(a, t) == WithT(b, t)
    ensures a[0] == b[0]
  {
    var t0, s0 := a[0].t, b[0].t;
    var wa, wb := WithT(a, t0), WithT(b, s0);
    assert wa == [a[0]] + WithT(a[1..], t0);
    assert wb == [b[0]] + WithT(b[1..], s0);
    assert wa[0] == a[0] && wb[0] == b[0];
    assert WithT(b, t0) == wa;
    assert WithT(a, s0) == wb;
    WithTMembers(b, t0);
    WithTMembers(a, s0);
    assert a[0] in b && b[0] in a;
    HeadLeast(b, a[0]);
    HeadLeast(a, b[0]);
    assert WithT(b, t0) == [b[0]] + WithT(b[1..], t0);
  }

  /** Two lists with the same head that agree on every WithT agree on every WithT of their
      tails. */
  lemma SameTailGroups<T>(a: seq<Intersection<T>>, b: seq<Intersection<T>>, t: real)
    requires a != [] && b != [] && a[0] == b[0]
    requires WithT(a, t) == WithT(b, t)
    ensures WithT(a[1..], t) == WithT(b[1..], t)
  {
    var h := if a[0].t == t then [a[0]] else [];
    assert WithT(a, t) == h + WithT(a[1..], t);
    assert WithT(b, t) == h + WithT(b[1..], t);
    assert WithT(a[1..], t) == (h + WithT(a[1..], t))[|h|..];
    assert WithT(b[1..], t) == (h + WithT(b[1..], t))[|h|..];
  }

  /** A sorted list is fixed by which elements carry each t and in what order: two sorted
      lists that agree on every WithT are equal. */
  lemma {:induction false} SortedDeterminedByGroups<T>(a: seq<Intersection<T>>, b: seq<Intersection<T>>)
    requires SortedByT(a) && SortedByT(b)
    requires forall t :: WithT(a, t) == WithT(b, t)
    ensures a == b
  {
    if a == [] {
      if b != [] {
        HeadGroupNonEmpty(b);
      }
    } else if b == [] {
      HeadGroupNonEmpty(a);
    } else {
      SameHead(a, b);
      forall t ensures WithT(a[1..], t) == WithT(b[1..], t) {
        SameTailGroups(a, b, t);
      }
      SortedDeterminedByGroups(a[1..], b[1..]);
      assert a == [a[0]] + a[1..] && b == [b[0]] + b[1..];
    }
  }

  /** Any sort by t that is stable gives exactly SortByT's result: a sorted list that keeps,
      for every t, the input's elements of that t in the input's order is SortByT(xs). */
  lemma StableSortIsSortByT<T>(xs: seq<Intersection<T>>, r: seq<Intersection<T>>)
    requires SortedByT(r)
    requires forall t :: WithT(r, t) == WithT(xs, t)
    ensures r == SortByT(xs)
  {
    forall t ensures WithT(r, t) == WithT(SortByT(xs), t) {
      SortByTStable(xs, t);
    }
    SortedDeterminedByGroups(r, SortByT(xs));
  }

  /** Two sorted lists with the same elements have the same sequence of t values, so which
      sorted permutation `sort` yields does not change the t order. */
  lemma {:induction false} SortedPermutationsAgreeOnT<T>(a: seq<Intersection<T>>, b: seq<Intersection<T>>)
    requires SortedByT(a) && SortedByT(b) && multiset(a) == multiset(b)
    ensures |a| == |b| && forall i :: 0 <= i < |a| ==> a[i].t == b[i].t
    decreases |a|, 1
  {
    assert |multiset(a)| == |multiset(b)|;
    if a != [] {
      assert a[0] in multiset(b) by { assert a[0] in multiset(a); }
      assert b[0] in multiset(a) by { assert b[0] in multiset(b); }
      var i :| 0 <= i < |b| && b[i] == a[0];
      var j :| 0 <= j < |a| && a[j] == b[0];
      assert a[0].t == b[0].t by {
        assert a[0].t <= a[j].t;
        assert b[0].t <= b[i].t;
      }
      SortedPermutationsAgreeOnTTail(a, b, i);
    }
  }

  /** The list without its element at index i. */
  function RemoveAt<T>(b: seq<Intersection<T>>, i: int): (r: seq<Intersection<T>>)
    requires 0 <= i < |b|
    ensures |r| == |b| - 1
    ensures forall k :: 0 <= k < i ==> r[k] == b[k]
    ensures forall k :: i <= k < |r| ==> r[k] == b[k + 1]
  {
    b[..i] + b[i + 1..]
  }

  /** Removing an element keeps the rest of the multiset and the order. */
  lemma RemoveAtKeeps<T>(b: seq<Intersection<T>>, i: int)
    requires 0 <= i < |b|
    ensures multiset(RemoveAt(b, i)) == multiset(b) - multiset{b[i]}
    ensures SortedByT(b) ==> SortedByT(RemoveAt(b, i))
  {
    assert b == b[..i] + [b[i]] + b[i + 1..];
    var rest := RemoveAt(b, i);
    if SortedByT(b) {
      forall p, q | 0 <= p < q < |rest| ensures rest[p].t <= rest[q].t {
        var p' := if p < i then p else p + 1;
        var q' := if q < i then q else q + 1;
        assert rest[p] == b[p'] && rest[q] == b[q'];
      }
    }
  }

  /** The step of `SortedPermutationsAgreeOnT`: with a's head found at index i of b, the
      tails agree on t. */
  lemma {:induction false} SortedPermutationsAgreeOnTTail<T>(a: seq<Intersection<T>>, b: seq<Intersection<T>>, i: int)
    requires SortedByT(a) && SortedByT(b) && multiset(a) == multiset(b)
    requires a != [] && 0 <= i < |b| && b[i] == a[0] && a[0].t == b[0].t
    ensures |a| == |b| && forall k :: 0 <= k < |a| ==> a[k].t == b[k].t
    decreases |a|, 0
  {
    assert |multiset(a)| == |multiset(b)|;
    var rest := RemoveAt(b, i);
    RemoveAtKeeps(b, i);
    assert a == [a[0]] + a[1..];
    assert multiset(a[1..]) == multiset(a) - multiset{a[0]};
    SortedPermutationsAgreeOnT(a[1..], rest);
    forall j | 1 <= j < |a| ensures a[j].t == rest[j - 1].t {
      assert a[j] == a[1..][j - 1];
    }
    forall k | 0 <= k < |a| ensures a[k].t == b[k].t {
      AgreeAfterRemoval(a, b, i, k);
    }
  }

  /** Position k of a and b agree on t when a's tail agrees with b less its element i, and
      b[i], b[0] and a[0] share t: before i, b's t values are pinned between b[0] and b[i]. */
  lemma AgreeAfterRemoval<T>(a: seq<Intersection<T>>, b: seq<Intersection<T>>, i: int, k: int)
    requires SortedByT(b) && |a| == |b| && 0 <= i < |b| && 0 <= k < |a|
    requires b[i].t == a[0].t == b[0].t
    requires forall j :: 1 <= j < |a| ==> a[j].t == RemoveAt(b, i)[j - 1].t
    ensures a[k].t == b[k].t
  {
    if 0 < k <= i {
      assert a[k].t == b[k - 1].t;
      assert b[0].t <= b[k - 1].t <= b[k].t <= b[i].t;
    } else if k > i {
      assert a[k].t == RemoveAt(b, i)[k - 1].t;
    }
  }
}
