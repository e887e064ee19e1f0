/** The five-minute indicator columns of the scoring study. Each column is
    computed on a whole eligible stretch and restarts after a bad slot. */
module Indicators {
  import opened Common
  import Segments

  /** One slot of the five-minute calendar; a missing bar is an ineligible slot. */
  datatype Slot = Slot(
    eligible: bool,
    isClosed: bool,
    open: real,
    high: real,
    low: real,
    close: real,
    quoteVolume: real,
    hash: string)

  /** priorMedian is the denominator of the volume_ratio column. */
  datatype Row = Row(
    ema20: Option<real>,
    ema50: Option<real>,
    atr20: Option<real>,
    hist: Option<real>,
    rsi: Option<real>,
    stoch: Option<real>,
    haBody: real,
    priorMedian: Option<real>)

  function Flags(bars: seq<Slot>): (ok: seq<bool>)
    ensures |ok| == |bars| && forall k :: 0 <= k < |ok| ==> ok[k] == bars[k].eligible
  {
    seq(|bars|, k requires 0 <= k < |bars| => bars[k].eligible)
  }

  function SlotCloses(part: seq<Slot>): (s: seq<real>)
    ensures |s| == |part| && forall k :: 0 <= k < |s| ==> s[k] == part[k].close
  {
    seq(|part|, k requires 0 <= k < |part| => part[k].close)
  }

  function SlotHighs(part: seq<Slot>): (s: seq<real>)
    ensures |s| == |part| && forall k :: 0 <= k < |s| ==> s[k] == part[k].high
  {
    seq(|part|, k requires 0 <= k < |part| => part[k].high)
  }

  function SlotLows(part: seq<Slot>): (s: seq<real>)
    ensures |s| == |part| && forall k :: 0 <= k < |s| ==> s[k] == part[k].low
  {
    seq(|part|, k requires 0 <= k < |part| => part[k].low)
  }

  function SlotVolumes(part: seq<Slot>): (s: seq<real>)
    ensures |s| == |part| && forall k :: 0 <= k < |s| ==> s[k] == part[k].quoteVolume
  {
    seq(|part|, k requires 0 <= k < |part| => part[k].quoteVolume)
  }

  // ---------- recurrences ----------

  /** Exponential mean seeded with the first value of the stretch. */
  function Ema(xs: seq<real>, span: nat, j: nat): real
    requires j < |xs|
  {
    if j == 0 then xs[0]
    else Ema(xs, span, j - 1) + 2.0 / (span as real + 1.0) * (xs[j] - Ema(xs, span, j - 1))
  }

  /** The same with min_periods = span. */
  function EmaAt(xs: seq<real>, span: nat, j: nat): Option<real>
    requires j < |xs|
  {
    if j + 1 < span then None else Some(Ema(xs, span, j))
  }

  function MacdLine(xs: seq<real>, j: nat): real
    requires 25 <= j < |xs|
  {
    Ema(xs, 12, j) - Ema(xs, 26, j)
  }

  /** Nine-period exponential mean of the line, seeded at the line's first value. */
  function MacdSignal(xs: seq<real>, j: nat): real
    requires 25 <= j < |xs|
  {
    if j == 25 then MacdLine(xs, j)
    else MacdSignal(xs, j - 1) + 0.2 * (MacdLine(xs, j) - MacdSignal(xs, j - 1))
  }

  function MacdHist(xs: seq<real>, j: nat): Option<real>
    requires j < |xs|
  {
    if j < 33 then None else Some(MacdLine(xs, j) - MacdSignal(xs, j))
  }

  function Gain(xs: seq<real>, k: nat): (g: real)
    requires 1 <= k < |xs|
    ensures g >= 0.0
  {
    Max(xs[k] - xs[k - 1], 0.0)
  }

  function Loss(xs: seq<real>, k: nat): (g: real)
    requires 1 <= k < |xs|
    ensures g >= 0.0
  {
    -Min(xs[k] - xs[k - 1], 0.0)
  }

  function Changes(xs: seq<real>, n: nat, up: bool): (s: seq<real>)
    requires n < |xs|
    ensures |s| == n
    ensures forall k :: 0 <= k < n ==> s[k] == if up then Gain(xs, k + 1) else Loss(xs, k + 1)
  {
    seq(n, k requires 0 <= k < n => if up then Gain(xs, k + 1) else Loss(xs, k + 1))
  }

  /** Wilder's average change: the mean of the first n changes, then 1/n steps. */
  function WilderAverage(xs: seq<real>, n: nat, j: nat, up: bool): (a: real)
    requires 1 <= n <= j < |xs|
    ensures a >= 0.0
    decreases j
  {
    if j == n then
      SumNonNegative(Changes(xs, n, up));
      Sum(Changes(xs, n, up)) / n as real
    else
      Smooth(WilderAverage(xs, n, j - 1, up), if up then Gain(xs, j) else Loss(xs, j), n)
  }

  /** One 1/n step from the average a towards the new change b. */
  function Smooth(a: real, b: real, n: nat): (r: real)
    requires n >= 1
    ensures a >= 0.0 && b >= 0.0 ==> r >= 0.0
  {
    if a >= 0.0 && b >= 0.0 then
      SmoothNonNegative(a, b, n);
      a + (b - a) / n as real
    else
      a + (b - a) / n as real
  }

  lemma SmoothNonNegative(a: real, b: real, n: nat)
    requires a >= 0.0 && b >= 0.0 && n >= 1
    ensures a + (b - a) / n as real >= 0.0
  {
    var w := n as real;
    assert (b - a) / w * w == b - a;
    assert (a + (b - a) / w) * w == a * w + b - a;
    assert a * w >= a by { assert a * (w - 1.0) >= 0.0; }
  }

  function Rsi(gain: real, loss: real): (r: real)
    requires gain >= 0.0 && loss >= 0.0
    ensures 0.0 <= r <= 100.0
    ensures r == 100.0 <==> loss == 0.0 && gain > 0.0
    ensures loss > 0.0 ==> (r == 0.0 <==> gain == 0.0)
  {
    if gain == 0.0 && loss == 0.0 then 50.0
    else if loss == 0.0 then 100.0
    else
      var q := gain / loss;
      assert q >= 0.0 && (q == 0.0 <==> gain == 0.0);
      assert 0.0 < 100.0 / (1.0 + q) <= 100.0;
      100.0 - 100.0 / (1.0 + q)
  }

  function WilderRsi(xs: seq<real>, n: nat, j: nat): Option<real>
    requires 1 <= n && j < |xs|
  {
    if j < n then None
    else Some(Rsi(WilderAverage(xs, n, j, true), WilderAverage(xs, n, j, false)))
  }

  function TrueRange(part: seq<Slot>, j: nat): real
    requires j < |part|
  {
    if j == 0 then part[0].high - part[0].low
    else Max(part[j].high - part[j].low,
             Max(Abs(part[j].high - part[j - 1].close), Abs(part[j].low - part[j - 1].close)))
  }

  function TrueRanges(part: seq<Slot>): (s: seq<real>)
    ensures |s| == |part| && forall k :: 0 <= k < |s| ==> s[k] == TrueRange(part, k)
  {
    seq(|part|, k requires 0 <= k < |part| => TrueRange(part, k))
  }

  function Atr20(part: seq<Slot>, j: nat): Option<real>
    requires j < |part|
  {
    if j < 19 then None else Some(Sum(TrueRanges(part)[j - 19..j + 1]) / 20.0)
  }

  function Percent(x: real, width: real): real
    requires width != 0.0
  {
    100.0 * x / width
  }

  function Stochastic(part: seq<Slot>, j: nat): Option<real>
    requires j < |part|
  {
    if j < 13 then None
    else
      var low := MinOf(SlotLows(part)[j - 13..j + 1]);
      var high := MaxOf(SlotHighs(part)[j - 13..j + 1]);
      if high == low then None else Some(Percent(part[j].close - low, high - low))
  }

  function HaClose(s: Slot): real {
    (s.open + s.high + s.low + s.close) / 4.0
  }

  function HaOpen(part: seq<Slot>, j: nat): real
    requires j < |part|
  {
    if j == 0 then (part[0].open + part[0].close) / 2.0
    else (HaOpen(part, j - 1) + HaClose(part[j - 1])) / 2.0
  }

  function HaBody(part: seq<Slot>, j: nat): real
    requires j < |part|
  {
    HaClose(part[j]) - HaOpen(part, j)
  }

  function PriorMedian(part: seq<Slot>, j: nat): Option<real>
    requires j < |part|
  {
    if j < 20 then None else Some(Median(SlotVolumes(part)[j - 20..j]))
  }

  /** The indicator row at position j of an eligible stretch. */
  function RowAt(part: seq<Slot>, j: nat): Row
    requires j < |part|
  {
    var xs := SlotCloses(part);
    Row(EmaAt(xs, 20, j),
        EmaAt(xs, 50, j),
        Atr20(part, j),
        MacdHist(xs, j),
        WilderRsi(xs, 14, j),
        Stochastic(part, j),
        HaBody(part, j),
        PriorMedian(part, j))
  }

  /** The indicator row of calendar slot i, computed on its whole stretch. */
  function IndicatorRow(bars: seq<Slot>, i: nat): Row
    requires i < |bars| && bars[i].eligible
  {
    var ok := Flags(bars);
    var s := Segments.Start(ok, i);
    RowAt(bars[s..Segments.End(ok, i)], i - s)
  }

  predicate Warm(bars: seq<Slot>, i: nat)
    requires i < |bars|
  {
    i >= 49 && forall k :: i - 49 <= k <= i ==> bars[k].eligible
  }

  // ---------- the loops of the source ----------

  method Wilder(xs: seq<real>, n: nat) returns (out: seq<Option<real>>)
    requires 1 <= n
    ensures |out| == |xs|
    ensures forall j :: 0 <= j < |xs| ==> out[j] == WilderRsi(xs, n, j)
  {
    out := seq(|xs|, _ => None);
    if |xs| <= n {
      return;
    }
    var gain := Sum(Changes(xs, n, true)) / n as real;
    var loss := Sum(Changes(xs, n, false)) / n as real;
    for i := n to |xs|
      invariant |out| == |xs|
      invariant forall j :: 0 <= j < i ==> out[j] == WilderRsi(xs, n, j)
      invariant gain == WilderAverage(xs, n, if i == n then n else i - 1, true)
      invariant loss == WilderAverage(xs, n, if i == n then n else i - 1, false)
    {
      if i > n {
        gain := Smooth(gain, Gain(xs, i), n);
        loss := Smooth(loss, Loss(xs, i), n);
      }
      out := out[i := Some(Rsi(gain, loss))];
    }
  }

  method HeikinAshiBodies(part: seq<Slot>) returns (bodies: seq<real>)
    requires |part| > 0
    ensures |bodies| == |part|
    ensures forall j :: 0 <= j < |part| ==> bodies[j] == HaBody(part, j)
  {
    var open := (part[0].open + part[0].close) / 2.0;
    bodies := [];
    for j := 0 to |part|
      invariant |bodies| == j
      invariant open == HaOpen(part, if j == 0 then 0 else j - 1)
      invariant forall k :: 0 <= k < j ==> bodies[k] == HaBody(part, k)
    {
      if j > 0 {
        open := (open + HaClose(part[j - 1])) / 2.0;
      }
      bodies := bodies + [HaClose(part[j]) - open];
    }
  }

  // ---------- causality ----------

  lemma {:induction false} EmaCausal(xs: seq<real>, ys: seq<real>, span: nat, j: nat)
    requires j < |xs| && j < |ys| && forall k :: 0 <= k <= j ==> xs[k] == ys[k]
    ensures Ema(xs, span, j) == Ema(ys, span, j)
  {
    if j > 0 {
      EmaCausal(xs, ys, span, j - 1);
    }
  }

  lemma {:induction false} MacdCausal(xs: seq<real>, ys: seq<real>, j: nat)
    requires 25 <= j < |xs| && j < |ys| && forall k :: 0 <= k <= j ==> xs[k] == ys[k]
    ensures MacdLine(xs, j) == MacdLine(ys, j) && MacdSignal(xs, j) == MacdSignal(ys, j)
  {
    EmaCausal(xs, ys, 12, j);
    EmaCausal(xs, ys, 26, j);
    if j > 25 {
      MacdCausal(xs, ys, j - 1);
    }
  }

  lemma {:induction false} WilderCausal(xs: seq<real>, ys: seq<real>, n: nat, j: nat, up: bool)
    requires 1 <= n <= j < |xs| && j < |ys| && forall k :: 0 <= k <= j ==> xs[k] == ys[k]
    ensures WilderAverage(xs, n, j, up) == WilderAverage(ys, n, j, up)
    decreases j
  {
    if j == n {
      assert Changes(xs, n, up) == Changes(ys, n, up);
    } else {
      WilderCausal(xs, ys, n, j - 1, up);
    }
  }

  lemma {:induction false} HaCausal(p: seq<Slot>, q: seq<Slot>, j: nat)
    requires j < |p| && j < |q| && forall k :: 0 <= k <= j ==> p[k] == q[k]
    ensures HaOpen(p, j) == HaOpen(q, j)
  {
    if j > 0 {
      HaCausal(p, q, j - 1);
    }
  }

  lemma AtrCausal(p: seq<Slot>, q: seq<Slot>, j: nat)
    requires j < |p| && j < |q| && forall k :: 0 <= k <= j ==> p[k] == q[k]
    ensures Atr20(p, j) == Atr20(q, j)
  {
    if j >= 19 {
      assert TrueRanges(p)[j - 19..j + 1] == TrueRanges(q)[j - 19..j + 1];
    }
  }

  lemma StochasticCausal(p: seq<Slot>, q: seq<Slot>, j: nat)
    requires j < |p| && j < |q| && forall k :: 0 <= k <= j ==> p[k] == q[k]
    ensures Stochastic(p, j) == Stochastic(q, j)
  {
    hide MinOf, MaxOf;
    if j >= 13 {
      assert SlotLows(p)[j - 13..j + 1] == SlotLows(q)[j - 13..j + 1];
      assert SlotHighs(p)[j - 13..j + 1] == SlotHighs(q)[j - 13..j + 1];
    }
  }

  lemma MedianCausal(p: seq<Slot>, q: seq<Slot>, j: nat)
    requires j < |p| && j < |q| && forall k :: 0 <= k <= j ==> p[k] == q[k]
    ensures PriorMedian(p, j) == PriorMedian(q, j)
  {
    if j >= 20 {
      assert SlotVolumes(p)[j - 20..j] == SlotVolumes(q)[j - 20..j];
    }
  }

  lemma ClosesCausal(xs: seq<real>, ys: seq<real>, j: nat)
    requires j < |xs| && j < |ys| && forall k :: 0 <= k <= j ==> xs[k] == ys[k]
    ensures EmaAt(xs, 20, j) == EmaAt(ys, 20, j)
    ensures EmaAt(xs, 50, j) == EmaAt(ys, 50, j)
    ensures MacdHist(xs, j) == MacdHist(ys, j)
  {
    EmaCausal(xs, ys, 20, j);
    EmaCausal(xs, ys, 50, j);
    if j >= 33 {
      MacdCausal(xs, ys, j);
    }
  }

  lemma RsiCausal(xs: seq<real>, ys: seq<real>, n: nat, j: nat)
    requires 1 <= n && j < |xs| && j < |ys| && forall k :: 0 <= k <= j ==> xs[k] == ys[k]
    ensures WilderRsi(xs, n, j) == WilderRsi(ys, n, j)
  {
    if j >= n {
      WilderCausal(xs, ys, n, j, true);
      WilderCausal(xs, ys, n, j, false);
    }
  }

  /** No indicator looks past its own bar, although each is computed on the
      whole stretch, future bars included. */
  lemma RowCausal(p: seq<Slot>, q: seq<Slot>, j: nat)
    requires j < |p| && j < |q| && forall k :: 0 <= k <= j ==> p[k] == q[k]
    ensures RowAt(p, j) == RowAt(q, j)
  {
    ClosesCausal(SlotCloses(p), SlotCloses(q), j);
    RsiCausal(SlotCloses(p), SlotCloses(q), 14, j);
    AtrCausal(p, q, j);
    StochasticCausal(p, q, j);
    MedianCausal(p, q, j);
    HaCausal(p, q, j);
  }

  /** Two calendars that agree up to slot i have the same indicators there. */
  lemma {:induction false} IndicatorCausal(a: seq<Slot>, b: seq<Slot>, i: nat)
    requires i < |a| && i < |b| && a[i].eligible
    requires forall k :: 0 <= k <= i ==> a[k] == b[k]
    ensures IndicatorRow(a, i) == IndicatorRow(b, i)
  {
    hide *;
    var oa, ob := Flags(a), Flags(b);
    assert oa[..i + 1] == ob[..i + 1];
    Segments.StartCausal(oa, ob, i);
    RowOnStretch(a, i);
    RowOnStretch(b, i);
    var s := Segments.Start(oa, i);
    RowCausal(a[s..Segments.End(oa, i)], b[s..Segments.End(ob, i)], i - s);
  }

  lemma RowOnStretch(bars: seq<Slot>, i: nat)
    requires i < |bars| && bars[i].eligible
    ensures var s, e := Segments.Start(Flags(bars), i), Segments.End(Flags(bars), i);
            IndicatorRow(bars, i) == RowAt(bars[s..e], i - s)
  {
    hide RowAt, Segments.Start, Segments.End, Flags;
  }

  lemma StretchShift(bars: seq<Slot>, d: nat, s: nat, e: nat, f: nat, j: nat)
    requires s <= j && d + j < e <= |bars| && j < f <= |bars| - d
    ensures RowAt(bars[d + s..e], j - s) == RowAt(bars[d..][s..f], j - s)
  {
    hide *;
    RowCausal(bars[d + s..e], bars[d..][s..f], j - s);
  }

  /** Indicators after a bad slot are those of a calendar that starts after it. */
  lemma {:induction false} IndicatorRestart(bars: seq<Slot>, d: nat, j: nat)
    requires 0 < d && d + j < |bars| && !bars[d - 1].eligible && bars[d + j].eligible
    ensures IndicatorRow(bars, d + j) == IndicatorRow(bars[d..], j)
  {
    hide *;
    var ok, rest := Flags(bars), Flags(bars[d..]);
    assert ok[d..] == rest;
    Segments.StartAfterBad(ok, d, j);
    RowOnStretch(bars, d + j);
    RowOnStretch(bars[d..], j);
    StretchShift(bars, d, Segments.Start(rest, j), Segments.End(ok, d + j), Segments.End(rest, j), j);
  }
}
