/** What the averages the models share are: weighted means of what they have seen, and
    middle values. */
module Averages {
  import opened Common
  import Columns
  import Indicators
  import SlowSleeve

  // ---------- means and medians ----------

  lemma {:induction false} SumBetween(s: seq<real>, low: real, high: real)
    requires forall k :: 0 <= k < |s| ==> low <= s[k] <= high
    ensures low * |s| as real <= Sum(s) <= high * |s| as real
  {
    if s != [] {
      SumBetween(s[..|s| - 1], low, high);
    }
  }

  lemma MeanBetween(s: seq<real>, low: real, high: real)
    requires s != [] && forall k :: 0 <= k < |s| ==> low <= s[k] <= high
    ensures low <= Sum(s) / |s| as real <= high
  {
    hide Sum;
    SumBetween(s, low, high);
    Quotient(Sum(s), |s| as real, low, high);
  }

  lemma Quotient(x: real, n: real, low: real, high: real)
    requires n > 0.0 && low * n <= x <= high * n
    ensures low <= x / n <= high
  {
    var q := x / n;
    assert q * n == x;
    Below(low, q, n);
    Below(q, high, n);
  }

  lemma Below(x: real, y: real, n: real)
    requires n > 0.0
    ensures x * n <= y * n <==> x <= y
  {
  }

  /** The values at or below x. */
  function AtMost(s: seq<real>, x: real): (n: nat)
    ensures n <= |s|
  {
    if s == [] then 0 else AtMost(s[..|s| - 1], x) + if s[|s| - 1] <= x then 1 else 0
  }

  function AtLeast(s: seq<real>, x: real): (n: nat)
    ensures n <= |s|
  {
    if s == [] then 0 else AtLeast(s[..|s| - 1], x) + if s[|s| - 1] >= x then 1 else 0
  }

  lemma {:induction false} CountsAppend(a: seq<real>, b: seq<real>, x: real)
    ensures AtMost(a + b, x) == AtMost(a, x) + AtMost(b, x)
    ensures AtLeast(a + b, x) == AtLeast(a, x) + AtLeast(b, x)
  {
    if b == [] {
      assert a + b == a;
    } else {
      var init := b[..|b| - 1];
      assert (a + b)[..|a + b| - 1] == a + init;
      CountsAppend(a, init, x);
    }
  }

  lemma {:induction false} InsertCounts(y: real, s: seq<real>, x: real)
    ensures AtMost(Insert(y, s), x) == AtMost([y], x) + AtMost(s, x)
    ensures AtLeast(Insert(y, s), x) == AtLeast([y], x) + AtLeast(s, x)
  {
    if s == [] || y <= s[0] {
      CountsAppend([y], s, x);
    } else {
      assert s == [s[0]] + s[1..];
      InsertCounts(y, s[1..], x);
      CountsAppend([s[0]], Insert(y, s[1..]), x);
      CountsAppend([s[0]], s[1..], x);
    }
  }

  lemma {:induction false} SortedCounts(s: seq<real>, x: real)
    ensures AtMost(Sorted(s), x) == AtMost(s, x) && AtLeast(Sorted(s), x) == AtLeast(s, x)
  {
    if s != [] {
      assert s == [s[0]] + s[1..];
      SortedCounts(s[1..], x);
      InsertCounts(s[0], Sorted(s[1..]), x);
      CountsAppend([s[0]], s[1..], x);
    }
  }

  lemma {:induction false} PrefixAtMost(r: seq<real>, n: nat, x: real)
    requires n <= |r| && forall k :: 0 <= k < n ==> r[k] <= x
    ensures AtMost(r, x) >= n
    decreases |r|
  {
    if n < |r| {
      PrefixAtMost(r[..|r| - 1], n, x);
    } else if n > 0 {
      PrefixAtMost(r[..n - 1], n - 1, x);
    }
  }

  lemma {:induction false} SuffixAtLeast(r: seq<real>, n: nat, x: real)
    requires n <= |r| && forall k :: n <= k < |r| ==> r[k] >= x
    ensures AtLeast(r, x) >= |r| - n
    decreases |r|
  {
    if n < |r| {
      SuffixAtLeast(r[..|r| - 1], n, x);
    }
  }

  lemma MiddleSplits(r: seq<real>, m: real)
    requires |r| > 0 && Ascending(r)
    requires m == if |r| % 2 == 1 then r[|r| / 2] else (r[|r| / 2 - 1] + r[|r| / 2]) / 2.0
    ensures 2 * AtMost(r, m) >= |r| && 2 * AtLeast(r, m) >= |r|
  {
    hide AtMost, AtLeast;
    var h := |r| / 2;
    var below := if |r| % 2 == 1 then h + 1 else h;
    assert forall k :: 0 <= k < below ==> r[k] <= r[below - 1];
    assert forall k :: h <= k < |r| ==> r[k] >= r[h];
    PrefixAtMost(r, below, m);
    SuffixAtLeast(r, h, m);
  }

  /** At least half of the values lie on either side of the median. */
  lemma MedianSplits(s: seq<real>)
    requires |s| > 0
    ensures 2 * AtMost(s, Median(s)) >= |s| && 2 * AtLeast(s, Median(s)) >= |s|
  {
    hide *;
    SortedAscending(s);
    SortedCounts(s, Median(s));
    MedianIsMiddle(s);
    MiddleSplits(Sorted(s), Median(s));
  }

  lemma MedianIsMiddle(s: seq<real>)
    requires |s| > 0
    ensures var r := Sorted(s);
            Median(s) == if |r| % 2 == 1 then r[|r| / 2] else (r[|r| / 2 - 1] + r[|r| / 2]) / 2.0
  {
    hide Sorted;
  }

  // ---------- true ranges ----------

  /** A true range spans the bar and the close before it. */
  lemma TrueRangeSpans(bars: seq<Bar>, i: nat)
    requires 1 <= i < |bars| && bars[i].low <= bars[i].high
    ensures Columns.TrueRange(bars, i) == Max(bars[i].high, bars[i - 1].close) - Min(bars[i].low, bars[i - 1].close)
  {
  }

  /** The average ranges lie among the true ranges of exactly their windows: up to the
      bar for the strategies, before it for the sleeves. */
  lemma AtrsAmongRanges(bars: seq<Bar>, w: nat, i: nat, low: real, high: real)
    requires 1 <= w <= i < |bars|
    ensures (forall k :: i - w < k <= i ==> low <= Columns.TrueRange(bars, k) <= high) ==>
              Columns.AtrAt(bars, w, i).Some? && low <= Columns.AtrAt(bars, w, i).value <= high
    ensures i - w >= 1 && (forall k :: i - w <= k < i ==> low <= Columns.TrueRange(bars, k) <= high) ==>
              low <= SlowSleeve.Atr(bars, i, w) <= high
  {
    hide Columns.TrueRange, Sum;
    if forall k :: i - w < k <= i ==> low <= Columns.TrueRange(bars, k) <= high {
      MeanBetween(Columns.TrueRanges(bars, i + 1 - w, i + 1), low, high);
    }
    if i - w >= 1 && forall k :: i - w <= k < i ==> low <= Columns.TrueRange(bars, k) <= high {
      MeanBetween(Columns.TrueRanges(bars, i - w, i), low, high);
    }
  }

  // ---------- exponential means ----------

  /** (1 - a) to the power n. */
  function Decay(a: real, n: nat): real {
    if n == 0 then 1.0 else Times(Decay(a, n - 1), 1.0 - a)
  }

  /** How much of a value first seen n bars ago is left. */
  function Weight(a: real, first: bool, n: nat): real {
    if first then Decay(a, n) else Times(a, Decay(a, n))
  }

  lemma EmaStep(xs: seq<real>, span: nat, j: nat)
    requires 0 < j < |xs|
    ensures var e := Indicators.Ema(xs, span, j - 1);
            Indicators.Ema(xs, span, j) == e + Times(2.0 / (span as real + 1.0), xs[j] - e)
  {
  }

  /** A value x higher at bar k leaves the mean higher by its decayed share, and with a
      share a = 2 / (span + 1) for new values; this fixes every weight of the mean. */
  lemma {:induction false} EmaResponds(xs: seq<real>, span: nat, k: nat, x: real, j: nat)
    requires k <= j < |xs|
    ensures Indicators.Ema(xs[k := xs[k] + x], span, j)
         == Indicators.Ema(xs, span, j) + Times(x, Weight(2.0 / (span as real + 1.0), k == 0, j - k))
    decreases j
  {
    var ys, a := xs[k := xs[k] + x], 2.0 / (span as real + 1.0);
    if j == 0 {
      assert Decay(a, 0) == 1.0;
    } else {
      hide Indicators.Ema;
      EmaStep(xs, span, j);
      EmaStep(ys, span, j);
      hide Times, Weight;
      if j == k {
        Indicators.EmaCausal(xs, ys, span, j - 1);
        Arrives(a, Indicators.Ema(xs, span, j - 1), x, xs[j]);
      } else {
        EmaResponds(xs, span, k, x, j - 1);
        Fades(a, Indicators.Ema(xs, span, j - 1), x, Weight(a, k == 0, j - 1 - k), xs[j]);
        WeightFades(a, k == 0, j - 1 - k);
      }
    }
  }

  lemma Arrives(a: real, e: real, x: real, y: real)
    ensures e + Times(a, y + x - e) == e + Times(a, y - e) + Times(x, Weight(a, false, 0))
  {
    assert Times(a, Decay(a, 0)) == a;
  }

  lemma Fades(a: real, e: real, x: real, w: real, y: real)
    ensures e + Times(x, w) + Times(a, y - (e + Times(x, w))) == e + Times(a, y - e) + Times(x, Times(w, 1.0 - a))
  {
    assert Times(x, Times(w, 1.0 - a)) == x * w - a * (x * w);
  }

  lemma WeightFades(a: real, first: bool, n: nat)
    ensures Weight(a, first, n + 1) == Times(Weight(a, first, n), 1.0 - a)
  {
    assert a * (Decay(a, n) * (1.0 - a)) == a * Decay(a, n) * (1.0 - a);
  }

  lemma {:induction false} SleeveEmaResponds(xs: seq<real>, k: nat, x: real, j: nat)
    requires k <= j < |xs|
    ensures SlowSleeve.EmaAt(xs[k := xs[k] + x], j)
         == SlowSleeve.EmaAt(xs, j) + Times(x, Weight(2.0 / 21.0, k == 0, j - k))
    decreases j
  {
    var ys, a := xs[k := xs[k] + x], 2.0 / 21.0;
    if j == k {
      if j > 0 {
        SlowSleeve.EmaCausal(xs, ys, j - 1);
      }
    } else {
      SleeveEmaResponds(xs, k, x, j - 1);
      Fades(a, SlowSleeve.EmaAt(xs, j - 1), x, Weight(a, k == 0, j - 1 - k), xs[j]);
      WeightFades(a, k == 0, j - 1 - k);
    }
  }
}
