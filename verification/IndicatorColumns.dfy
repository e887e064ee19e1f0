/** What the scoring study's indicator columns say about the bars they are taken from. */
module IndicatorColumns {
  import opened Common
  import opened Indicators
  import Averages

  /** When each column is there: after its own window of the stretch. */
  lemma ColumnsStart(part: seq<Slot>, j: nat)
    requires j < |part|
    ensures var r := RowAt(part, j);
            && (r.ema20.Some? <==> j >= 19) && (r.ema50.Some? <==> j >= 49) && (r.atr20.Some? <==> j >= 19)
            && (r.hist.Some? <==> j >= 33) && (r.rsi.Some? <==> j >= 14) && (r.priorMedian.Some? <==> j >= 20)
            && (r.stoch.Some? ==> j >= 13)
  {
    hide Ema, MacdLine, MacdSignal, WilderAverage, Sum, MinOf, MaxOf, Median, Percent, TrueRange, HaBody;
  }

  // ---------- the means ----------

  /** A last close x higher lifts the two means by 2/21 and 2/51 of x, and the histogram
      by four fifths of 2/13 - 2/27 of it. */
  lemma MeansRespond(xs: seq<real>, j: nat, x: real)
    requires 0 < j < |xs|
    ensures var ys := xs[j := xs[j] + x];
            && (j >= 19 ==> EmaAt(ys, 20, j).value == EmaAt(xs, 20, j).value + 2.0 / 21.0 * x)
            && (j >= 49 ==> EmaAt(ys, 50, j).value == EmaAt(xs, 50, j).value + 2.0 / 51.0 * x)
            && (j >= 33 ==> MacdHist(ys, j).value == MacdHist(xs, j).value + 0.8 * (2.0 / 13.0 - 2.0 / 27.0) * x)
  {
    var ys := xs[j := xs[j] + x];
    LastResponds(xs, 20, j, x);
    LastResponds(xs, 50, j, x);
    LastResponds(xs, 12, j, x);
    LastResponds(xs, 26, j, x);
    if j >= 33 {
      MacdCausal(xs, ys, j - 1);
    }
    hide Ema;
  }

  lemma LastResponds(xs: seq<real>, span: nat, j: nat, x: real)
    requires 0 < j < |xs|
    ensures Ema(xs[j := xs[j] + x], span, j) == Ema(xs, span, j) + 2.0 / (span as real + 1.0) * x
  {
    var ys := xs[j := xs[j] + x];
    EmaCausal(xs, ys, span, j - 1);
    var a, e := 2.0 / (span as real + 1.0), Ema(xs, span, j - 1);
    assert a * (xs[j] + x - e) == a * (xs[j] - e) + a * x;
  }

  lemma {:induction false} SignalAmongLines(xs: seq<real>, j: nat, low: real, high: real)
    requires 25 <= j < |xs| && forall k: nat :: 25 <= k <= j ==> low <= MacdLine(xs, k) <= high
    ensures low <= MacdSignal(xs, j) <= high
  {
    hide MacdLine;
    if j > 25 {
      SignalAmongLines(xs, j - 1, low, high);
    }
  }

  /** The histogram is positive at a new high of the line and negative at a new low. */
  lemma HistogramFollowsLine(xs: seq<real>, j: nat, other: real)
    requires 33 <= j < |xs|
    ensures (forall k: nat :: 25 <= k < j ==> MacdLine(xs, k) <= other) && other < MacdLine(xs, j) ==>
              MacdHist(xs, j).value > 0.0
    ensures (forall k: nat :: 25 <= k < j ==> MacdLine(xs, k) >= other) && other > MacdLine(xs, j) ==>
              MacdHist(xs, j).value < 0.0
  {
    hide MacdLine;
    var low, high := LineBounds(xs, j - 1);
    if forall k: nat :: 25 <= k < j ==> MacdLine(xs, k) <= other {
      SignalAmongLines(xs, j - 1, low, Max(other, low));
    }
    if forall k: nat :: 25 <= k < j ==> MacdLine(xs, k) >= other {
      SignalAmongLines(xs, j - 1, Min(other, high), high);
    }
  }

  lemma {:induction false} LineBounds(xs: seq<real>, j: nat) returns (low: real, high: real)
    requires 25 <= j < |xs|
    ensures forall k: nat :: 25 <= k <= j ==> low <= MacdLine(xs, k) <= high
  {
    hide MacdLine;
    if j == 25 {
      low, high := MacdLine(xs, 25), MacdLine(xs, 25);
    } else {
      low, high := LineBounds(xs, j - 1);
      low, high := Min(low, MacdLine(xs, j)), Max(high, MacdLine(xs, j));
    }
  }

  // ---------- ranges ----------

  lemma TrueRangeSpans(part: seq<Slot>, j: nat)
    requires 1 <= j < |part| && part[j].low <= part[j].high
    ensures TrueRange(part, j) == Max(part[j].high, part[j - 1].close) - Min(part[j].low, part[j - 1].close)
  {
  }

  /** The average range lies among the true ranges of the last twenty bars. */
  lemma AtrAmongRanges(part: seq<Slot>, j: nat, low: real, high: real)
    requires 19 <= j < |part| && forall k :: j - 20 < k <= j ==> low <= TrueRange(part, k) <= high
    ensures low <= Atr20(part, j).value <= high
  {
    hide TrueRange, Sum;
    Averages.MeanBetween(TrueRanges(part)[j - 19..j + 1], low, high);
  }

  /** The stochastic is the close's place in the range of the last fourteen bars: that
      share of the way from their lowest low to their highest high, in percent. */
  lemma StochasticPlaces(part: seq<Slot>, j: nat, low: nat, high: nat)
    requires 13 <= j < |part| && j - 14 < low <= j && j - 14 < high <= j
    requires forall k :: j - 14 < k <= j ==> part[low].low <= part[k].low && part[k].high <= part[high].high
    ensures Stochastic(part, j).Some? <==> part[high].high != part[low].low
    ensures Stochastic(part, j).Some? ==>
              Times(Stochastic(part, j).value, part[high].high - part[low].low)
                == 100.0 * (part[j].close - part[low].low)
  {
    hide MinOf, MaxOf;
    WindowLow(part, j, low);
    WindowHigh(part, j, high);
    if Stochastic(part, j).Some? {
      PercentTimes(part[j].close - part[low].low, part[high].high - part[low].low);
    }
  }

  lemma WindowLow(part: seq<Slot>, j: nat, low: nat)
    requires 13 <= j < |part| && j - 14 < low <= j && forall k :: j - 14 < k <= j ==> part[low].low <= part[k].low
    ensures MinOf(SlotLows(part)[j - 13..j + 1]) == part[low].low
  {
    var s := SlotLows(part)[j - 13..j + 1];
    var l :| 0 <= l < 14 && s[l] == MinOf(s);
    hide MinOf;
    assert s[low - (j - 13)] == part[low].low && s[l] == part[j - 13 + l].low;
  }

  lemma WindowHigh(part: seq<Slot>, j: nat, high: nat)
    requires 13 <= j < |part| && j - 14 < high <= j && forall k :: j - 14 < k <= j ==> part[k].high <= part[high].high
    ensures MaxOf(SlotHighs(part)[j - 13..j + 1]) == part[high].high
  {
    var s := SlotHighs(part)[j - 13..j + 1];
    var h :| 0 <= h < 14 && s[h] == MaxOf(s);
    hide MaxOf;
    assert s[high - (j - 13)] == part[high].high && s[h] == part[j - 13 + h].high;
  }

  lemma PercentTimes(x: real, width: real)
    requires width != 0.0
    ensures Times(Percent(x, width), width) == 100.0 * x
  {
  }

  // ---------- strength ----------

  lemma {:induction false} AverageVanishes(xs: seq<real>, n: nat, j: nat, up: bool)
    requires 1 <= n <= j < |xs|
    requires forall k :: 0 < k <= j ==> if up then xs[k] <= xs[k - 1] else xs[k] >= xs[k - 1]
    ensures WilderAverage(xs, n, j, up) == 0.0
    decreases j
  {
    if j == n {
      SumOfEqual(Changes(xs, n, up), 0.0);
    } else {
      AverageVanishes(xs, n, j - 1, up);
    }
  }

  lemma {:induction false} AverageAtLeast(xs: seq<real>, n: nat, j: nat, up: bool, least: real)
    requires 1 <= n <= j < |xs|
    requires forall k :: 0 < k <= j ==> least <= if up then xs[k] - xs[k - 1] else xs[k - 1] - xs[k]
    ensures WilderAverage(xs, n, j, up) >= least
    decreases j
  {
    hide Sum, Smooth, Changes;
    if j == n {
      FirstAverage(xs, n, up, least);
    } else {
      AverageAtLeast(xs, n, j - 1, up, least);
      Towards(WilderAverage(xs, n, j - 1, up), if up then Gain(xs, j) else Loss(xs, j), n, least);
    }
  }

  lemma FirstAverage(xs: seq<real>, n: nat, up: bool, least: real)
    requires 1 <= n < |xs|
    requires forall k :: 0 < k <= n ==> least <= if up then xs[k] - xs[k - 1] else xs[k - 1] - xs[k]
    ensures WilderAverage(xs, n, n, up) >= least
  {
    hide Sum;
    var s := Changes(xs, n, up);
    forall k | 0 <= k < n ensures s[k] >= least {
      assert least <= if up then xs[k + 1] - xs[k + 1 - 1] else xs[k + 1 - 1] - xs[k + 1];
    }
    SumAtLeast(s, least);
    AtLeastQuotient(Sum(s), n as real, least);
  }

  lemma {:induction false} SumAtLeast(s: seq<real>, least: real)
    requires forall k :: 0 <= k < |s| ==> s[k] >= least
    ensures Sum(s) >= least * |s| as real
  {
    if s != [] {
      SumAtLeast(s[..|s| - 1], least);
    }
  }

  lemma AtLeastQuotient(x: real, n: real, least: real)
    requires n > 0.0 && x >= least * n
    ensures x / n >= least
  {
    var q := x / n;
    assert q * n == x;
    Averages.Below(least, q, n);
  }

  lemma Towards(a: real, b: real, n: nat, least: real)
    requires n >= 1 && a >= least && b >= least
    ensures Smooth(a, b, n) >= least
  {
    SmoothNonNegative(a - least, b - least, n);
  }

  /** Closes that only rise have an RSI of 100, closes that only fall one of 0. */
  lemma RsiFollowsCloses(xs: seq<real>, n: nat, j: nat, step: real)
    requires 1 <= n <= j < |xs| && step > 0.0
    ensures (forall k :: 0 < k <= j ==> xs[k] - xs[k - 1] >= step) ==> WilderRsi(xs, n, j) == Some(100.0)
    ensures (forall k :: 0 < k <= j ==> xs[k - 1] - xs[k] >= step) ==> WilderRsi(xs, n, j) == Some(0.0)
  {
    hide WilderAverage;
    if forall k :: 0 < k <= j ==> xs[k] - xs[k - 1] >= step {
      AverageVanishes(xs, n, j, false);
      AverageAtLeast(xs, n, j, true, step);
    }
    if forall k :: 0 < k <= j ==> xs[k - 1] - xs[k] >= step {
      AverageVanishes(xs, n, j, true);
      AverageAtLeast(xs, n, j, false, step);
    }
  }

  // ---------- Heikin-Ashi ----------

  lemma {:induction false} HaOpenBelow(part: seq<Slot>, j: nat, top: real)
    requires 0 < j < |part| && (part[0].open + part[0].close) / 2.0 <= top
    requires forall k :: 0 <= k < j ==> HaClose(part[k]) <= top
    ensures HaOpen(part, j) <= top
  {
    hide HaClose;
    if j > 1 {
      HaOpenBelow(part, j - 1, top);
    } else {
      assert HaOpen(part, 0) <= top;
    }
  }

  /** The body is up when the bar's mean price is above all before it. */
  lemma HaBodyFollowsPrice(part: seq<Slot>, j: nat, top: real)
    requires 0 < j < |part| && (part[0].open + part[0].close) / 2.0 <= top
    requires forall k :: 0 <= k < j ==> part[k].open + part[k].high + part[k].low + part[k].close <= 4.0 * top
    requires part[j].open + part[j].high + part[j].low + part[j].close > 4.0 * top
    ensures HaBody(part, j) > 0.0
  {
    HaOpenBelow(part, j, top);
    hide HaOpen;
  }
}
