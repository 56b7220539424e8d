/** The nearest-rank 95th percentile, characterised by counting. */
module OrderStatistics {
  import opened Common

  predicate Ascending(v: seq<real>) { forall i, j | 0 <= i < j < |v| :: v[i] <= v[j] }

  function Insert(x: real, s: seq<real>): (r: seq<real>)
    requires Ascending(s)
    ensures Ascending(r) && |r| == |s| + 1
    ensures forall y :: y in r <==> y == x || y in s
  {
    if s == [] || x <= s[0] then [x] + s
    else
      assert s == [s[0]] + s[1..];
      var t := Insert(x, s[1..]);
      assert forall i | 0 <= i < |t| :: s[0] <= t[i] by {
        assert forall i | 0 <= i < |t| :: t[i] in t;
      }
      [s[0]] + t
  }

  /** The values in ascending order; `SortCounts` below says that none is lost or repeated. */
  function Sort(v: seq<real>): (r: seq<real>)
    ensures Ascending(r) && |r| == |v|
    ensures forall y :: y in r <==> y in v
  {
    if v == [] then [] else
    assert v == v[..|v| - 1] + [v[|v| - 1]];
    Insert(v[|v| - 1], Sort(v[..|v| - 1]))
  }

  function CountAtMost(v: seq<real>, x: real): nat {
    if v == [] then 0 else (if v[0] <= x then 1 else 0) + CountAtMost(v[1..], x)
  }

  function CountBelow(v: seq<real>, x: real): nat {
    if v == [] then 0 else (if v[0] < x then 1 else 0) + CountBelow(v[1..], x)
  }

  /** ceil(0.95 n). */
  function Rank(n: nat): nat { (95 * n + 99) / 100 }

  function P95(v: seq<real>): real {
    if v == [] then 0.0 else
    Sort(v)[Min(Rank(|v|), |v|) - 1]
  }

  lemma {:induction false} InsertCounts(x: real, s: seq<real>, y: real)
    requires Ascending(s)
    ensures CountAtMost(Insert(x, s), y) == CountAtMost(s, y) + (if x <= y then 1 else 0)
    ensures CountBelow(Insert(x, s), y) == CountBelow(s, y) + (if x < y then 1 else 0)
  {
    if s == [] || x <= s[0] {
      assert ([x] + s)[1..] == s;
    } else {
      InsertCounts(x, s[1..], y);
      assert ([s[0]] + Insert(x, s[1..]))[1..] == Insert(x, s[1..]);
    }
  }

  lemma {:induction false} CountSnoc(v: seq<real>, x: real, y: real)
    ensures CountAtMost(v + [x], y) == CountAtMost(v, y) + (if x <= y then 1 else 0)
    ensures CountBelow(v + [x], y) == CountBelow(v, y) + (if x < y then 1 else 0)
  {
    if v == [] {
      assert v + [x] == [x];
    } else {
      CountSnoc(v[1..], x, y);
      assert (v + [x])[1..] == v[1..] + [x];
    }
  }

  lemma {:induction false} SortCounts(v: seq<real>, y: real)
    ensures CountAtMost(Sort(v), y) == CountAtMost(v, y) && CountBelow(Sort(v), y) == CountBelow(v, y)
  {
    if v != [] {
      var init := v[..|v| - 1];
      SortCounts(init, y);
      InsertCounts(v[|v| - 1], Sort(init), y);
      CountSnoc(init, v[|v| - 1], y);
      assert v == init + [v[|v| - 1]];
    }
  }

  lemma {:induction false} CountBounds(v: seq<real>, y: real)
    ensures CountAtMost(v, y) <= |v|
    ensures (forall x | x in v :: x >= y) ==> CountBelow(v, y) == 0
  {
    if v != [] {
      CountBounds(v[1..], y);
      assert v[0] in v && forall x | x in v[1..] :: x in v;
    }
  }

  /** In an ascending list the element at position `k` has at least k + 1 values at most it and at most k below it. */
  lemma {:induction false} CountsAt(s: seq<real>, k: nat)
    requires Ascending(s) && k < |s|
    ensures CountAtMost(s, s[k]) >= k + 1 && CountBelow(s, s[k]) <= k
  {
    if k > 0 {
      CountsAt(s[1..], k - 1);
    } else {
      assert forall x | x in s :: x >= s[0];
      CountBounds(s, s[0]);
    }
  }

  /** The rank is 0.95 n rounded up. */
  lemma RankRoundsUp(n: nat)
    requires n > 0
    ensures 1 <= Rank(n) <= n && 100 * Rank(n) >= 95 * n > 100 * (Rank(n) - 1)
  {
  }

  /**
   * The percentile is one of the values, with at least `rank` values at most it and fewer than `rank` below it: at least
   * 95 in a hundred are at most it, and fewer are below it. Of no values it is 0.
   */
  lemma P95Characterised(v: seq<real>)
    ensures v == [] ==> P95(v) == 0.0
    ensures v != [] ==>
      && P95(v) in v
      && CountAtMost(v, P95(v)) >= Rank(|v|) && CountBelow(v, P95(v)) < Rank(|v|)
      && 100 * CountAtMost(v, P95(v)) >= 95 * |v| && 100 * CountBelow(v, P95(v)) < 95 * |v|
  {
    if v == [] {
      return;
    }
    RankRoundsUp(|v|);
    var s := Sort(v);
    var k := Min(Rank(|v|), |v|) - 1;
    assert k + 1 == Rank(|v|);
    CountsAt(s, k);
    SortCounts(v, s[k]);
    assert s[k] in s;
  }

  lemma {:induction false} BelowIsMore(v: seq<real>, x: real, y: real)
    requires x < y
    ensures CountAtMost(v, x) <= CountBelow(v, y)
  {
    if v != [] {
      BelowIsMore(v[1..], x, y);
    }
  }

  /** Those two counts leave no choice. */
  lemma RankUnique(v: seq<real>, r: nat, x: real, y: real)
    requires CountAtMost(v, x) >= r && CountBelow(v, x) < r
    requires CountAtMost(v, y) >= r && CountBelow(v, y) < r
    ensures x == y
  {
    if x < y {
      BelowIsMore(v, x, y);
    } else if y < x {
      BelowIsMore(v, y, x);
    }
  }

  predicate Pointwise(a: seq<real>, b: seq<real>) { |a| == |b| && forall i | 0 <= i < |a| :: a[i] <= b[i] }

  lemma {:induction false} PointwiseCounts(a: seq<real>, b: seq<real>, x: real)
    requires Pointwise(a, b)
    ensures CountBelow(a, x) >= CountBelow(b, x) && CountAtMost(a, x) >= CountAtMost(b, x)
  {
    if a != [] {
      PointwiseCounts(a[1..], b[1..], x);
    }
  }

  /** Raising values never lowers the percentile. */
  lemma P95Monotone(a: seq<real>, b: seq<real>)
    requires Pointwise(a, b)
    ensures P95(a) <= P95(b)
  {
    if a != [] && P95(b) < P95(a) {
      P95Characterised(a);
      P95Characterised(b);
      PointwiseCounts(a, b, P95(b));
      BelowIsMore(a, P95(b), P95(a));
      assert false;
    }
  }
}
