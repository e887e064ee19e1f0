/** The study has no directional bias: turning every price upside down about any
    level turns every event's side around and changes nothing else. */
module ScoringStudyMirror {
  import opened Common
  import opened Indicators
  import opened HourlyContext
  import opened ScoringStudy
  import Segments

  // ---------- the mirror ----------

  function MirrorSlot(c: real, s: Slot): Slot {
    s.(open := c - s.open, high := c - s.low, low := c - s.high, close := c - s.close)
  }

  function MirrorTape(c: real, bars: seq<Slot>): (m: seq<Slot>)
    ensures |m| == |bars| && forall k :: 0 <= k < |m| ==> m[k] == MirrorSlot(c, bars[k])
  {
    seq(|bars|, k requires 0 <= k < |bars| => MirrorSlot(c, bars[k]))
  }

  function Minus(c: real, x: Option<real>): Option<real> {
    if x.Some? then Some(c - x.value) else None
  }

  function MirrorRow(c: real, row: Row): Row {
    Row(Minus(c, row.ema20), Minus(c, row.ema50), row.atr20, Minus(0.0, row.hist), Minus(100.0, row.rsi),
        Minus(100.0, row.stoch), -row.haBody, row.priorMedian)
  }

  function MirrorRegime(r: Regime): Regime {
    match r
    case Up => Down
    case Down => Up
    case Range => Range
    case Unknown => Unknown
  }

  function MirrorContext(x: Context): Context {
    x.(regime := MirrorRegime(x.regime))
  }

  function MirrorPivot(c: real, p: Option<Pivot>): Option<Pivot> {
    if p.Some? then Some(p.value.(price := c - p.value.price, rsi := Minus(100.0, p.value.rsi))) else None
  }

  function MirrorEdges(c: real, e: Option<(real, real)>): Option<(real, real)> {
    if e.Some? then Some((c - e.value.1, c - e.value.0)) else None
  }

  function MirrorDecision(c: real, d: Decision): Decision {
    Decision(MirrorSlot(c, d.p), Minus(c, d.priorEma), MirrorTape(c, d.prior), MirrorRow(c, d.row), d.atr,
             MirrorContext(d.context))
  }

  function MirrorSeen(c: real, s: Seen): Seen {
    match s
    case Bad => Bad
    case Seen(slot, r, low, high, gapUp, gapDown, decision) =>
      Seen(slot, MirrorSlot(c, r), MirrorPivot(c, high), MirrorPivot(c, low), MirrorEdges(c, gapDown),
           MirrorEdges(c, gapUp), if decision.Some? then Some(MirrorDecision(c, decision.value)) else None)
  }

  // ---------- indicators ----------

  lemma {:induction false} EmaMirror(c: real, xs: seq<real>, ys: seq<real>, span: nat, j: nat)
    requires Reflects(c, xs, ys) && j < |xs|
    ensures Ema(ys, span, j) == c - Ema(xs, span, j)
  {
    if j > 0 {
      EmaMirror(c, xs, ys, span, j - 1);
      StepMirror(c, 2.0 / (span as real + 1.0), Ema(xs, span, j - 1), xs[j]);
    }
  }

  lemma StepMirror(c: real, k: real, e: real, x: real)
    ensures (c - e) + k * ((c - x) - (c - e)) == c - (e + k * (x - e))
  {
    assert (c - x) - (c - e) == -(x - e);
  }

  lemma {:induction false} MacdMirror(c: real, xs: seq<real>, ys: seq<real>, j: nat)
    requires Reflects(c, xs, ys) && 25 <= j < |xs|
    ensures MacdLine(ys, j) == -MacdLine(xs, j) && MacdSignal(ys, j) == -MacdSignal(xs, j)
  {
    EmaMirror(c, xs, ys, 12, j);
    EmaMirror(c, xs, ys, 26, j);
    hide Ema;
    if j > 25 {
      MacdMirror(c, xs, ys, j - 1);
    }
  }

  /** Gains and losses change places. */
  lemma {:induction false} WilderMirror(c: real, xs: seq<real>, ys: seq<real>, n: nat, j: nat, up: bool)
    requires Reflects(c, xs, ys) && 1 <= n <= j < |xs|
    ensures WilderAverage(ys, n, j, up) == WilderAverage(xs, n, j, !up)
    decreases j
  {
    hide Smooth;
    if j == n {
      assert Changes(ys, n, up) == Changes(xs, n, !up);
    } else {
      WilderMirror(c, xs, ys, n, j - 1, up);
    }
  }

  lemma RsiMirror(gain: real, loss: real)
    requires gain >= 0.0 && loss >= 0.0
    ensures Rsi(loss, gain) == 100.0 - Rsi(gain, loss)
  {
    if gain > 0.0 && loss > 0.0 {
      Shares(gain, loss);
    }
  }

  lemma Shares(gain: real, loss: real)
    requires gain > 0.0 && loss > 0.0
    ensures 100.0 / (1.0 + gain / loss) + 100.0 / (1.0 + loss / gain) == 100.0
  {
    var sum := gain + loss;
    Inverted(gain, loss);
    Inverted(loss, gain);
    assert 100.0 * loss / sum + 100.0 * gain / sum == 100.0 by {
      assert 100.0 * loss / sum * sum == 100.0 * loss;
      assert 100.0 * gain / sum * sum == 100.0 * gain;
      Cancel(100.0 * loss / sum + 100.0 * gain / sum, 100.0, sum);
    }
  }

  lemma Cancel(a: real, b: real, s: real)
    requires s != 0.0 && a * s == b * s
    ensures a == b
  {
  }

  lemma Inverted(a: real, b: real)
    requires a > 0.0 && b > 0.0
    ensures 1.0 + a / b > 0.0 && 100.0 / (1.0 + a / b) == 100.0 * b / (b + a)
  {
    var q, t := 1.0 + a / b, 100.0 * b / (b + a);
    assert a / b > 0.0 && q * b == b + a;
    assert t * (b + a) == 100.0 * b;
    Regroup(t, q, b, b + a);
    Cancel(t * q, 100.0, b);
    assert 100.0 / q * q == 100.0;
    Cancel(100.0 / q, t, q);
  }

  lemma Regroup(t: real, q: real, b: real, s: real)
    requires q * b == s
    ensures (t * q) * b == t * s
  {
  }

  lemma RsiColumnMirror(c: real, xs: seq<real>, ys: seq<real>, j: nat)
    requires Reflects(c, xs, ys) && j < |xs|
    ensures WilderRsi(ys, 14, j) == Minus(100.0, WilderRsi(xs, 14, j))
  {
    hide Rsi, WilderAverage;
    if j >= 14 {
      WilderMirror(c, xs, ys, 14, j, true);
      WilderMirror(c, xs, ys, 14, j, false);
      RsiMirror(WilderAverage(xs, 14, j, true), WilderAverage(xs, 14, j, false));
    }
  }

  lemma ClosesMirror(c: real, xs: seq<real>, ys: seq<real>, j: nat)
    requires Reflects(c, xs, ys) && j < |xs|
    ensures EmaAt(ys, 20, j) == Minus(c, EmaAt(xs, 20, j)) && EmaAt(ys, 50, j) == Minus(c, EmaAt(xs, 50, j))
    ensures MacdHist(ys, j) == Minus(0.0, MacdHist(xs, j))
  {
    EmaMirror(c, xs, ys, 20, j);
    EmaMirror(c, xs, ys, 50, j);
    hide Ema, MacdLine, MacdSignal;
    if j >= 33 {
      MacdMirror(c, xs, ys, j);
    }
  }

  lemma AtrMirror(c: real, part: seq<Slot>, j: nat)
    requires j < |part|
    ensures Atr20(MirrorTape(c, part), j) == Atr20(part, j)
  {
    var m := MirrorTape(c, part);
    forall k: nat | k < |part| ensures TrueRange(m, k) == TrueRange(part, k) {
      TrueRangeMirror(c, part, m, k);
    }
    hide TrueRange;
    assert TrueRanges(m) == TrueRanges(part);
  }

  lemma TrueRangeMirror(c: real, part: seq<Slot>, m: seq<Slot>, k: nat)
    requires k < |part| && m == MirrorTape(c, part)
    ensures TrueRange(m, k) == TrueRange(part, k)
  {
  }

  lemma Distribute(p: real, q: real, w: real)
    ensures (p + q) * w == p * w + q * w
  {
  }

  lemma WindowReflects(c: real, part: seq<Slot>, from: nat, to: nat)
    requires from < to <= |part|
    ensures Reflects(c, SlotHighs(part)[from..to], SlotLows(MirrorTape(c, part))[from..to])
    ensures Reflects(c, SlotLows(part)[from..to], SlotHighs(MirrorTape(c, part))[from..to])
  {
  }

  function LowOf(part: seq<Slot>, from: nat, to: nat): real
    requires from < to <= |part|
  {
    MinOf(SlotLows(part)[from..to])
  }

  function HighOf(part: seq<Slot>, from: nat, to: nat): real
    requires from < to <= |part|
  {
    MaxOf(SlotHighs(part)[from..to])
  }

  lemma ExtremesMirror(c: real, part: seq<Slot>, from: nat, to: nat)
    requires from < to <= |part|
    ensures LowOf(MirrorTape(c, part), from, to) == c - HighOf(part, from, to)
    ensures HighOf(MirrorTape(c, part), from, to) == c - LowOf(part, from, to)
  {
    WindowReflects(c, part, from, to);
    hide MinOf, MaxOf, Reflects;
    ExtremesReflect(c, SlotHighs(part)[from..to], SlotLows(MirrorTape(c, part))[from..to]);
    ExtremesReflect(c, SlotLows(part)[from..to], SlotHighs(MirrorTape(c, part))[from..to]);
  }

  lemma StochasticMirror(c: real, part: seq<Slot>, j: nat)
    requires j < |part|
    ensures Stochastic(MirrorTape(c, part), j) == Minus(100.0, Stochastic(part, j))
  {
    hide LowOf, HighOf, Reading, Stochastic;
    var m := MirrorTape(c, part);
    StochasticValue(part, j);
    StochasticValue(m, j);
    if j >= 13 {
      ExtremesMirror(c, part, j - 13, j + 1);
      WidthMirror(c, part[j].close, LowOf(part, j - 13, j + 1), HighOf(part, j - 13, j + 1));
    }
  }

  /** The stochastic reading of a close within a window's extremes. */
  function Reading(close: real, low: real, high: real): Option<real> {
    if high == low then None else Some(Percent(close - low, high - low))
  }

  lemma WidthMirror(c: real, close: real, low: real, high: real)
    ensures Reading(c - close, c - high, c - low) == Minus(100.0, Reading(close, low, high))
  {
    hide Percent;
    if high != low {
      Complement(close - low, high - low);
      assert (c - close) - (c - high) == (high - low) - (close - low);
      assert (c - low) - (c - high) == high - low;
    }
  }

  lemma StochasticValue(part: seq<Slot>, j: nat)
    requires j < |part|
    ensures Stochastic(part, j)
         == if j < 13 then None
            else Reading(part[j].close, LowOf(part, j - 13, j + 1), HighOf(part, j - 13, j + 1))
  {
    hide MinOf, MaxOf, Percent;
  }

  lemma Complement(x: real, w: real)
    requires w != 0.0
    ensures Percent(w - x, w) == 100.0 - Percent(x, w)
  {
    var p, q := Percent(w - x, w), Percent(x, w);
    assert p * w == 100.0 * (w - x) && q * w == 100.0 * x;
    Distribute(p, q, w);
    assert 100.0 * (w - x) + 100.0 * x == 100.0 * w;
    Cancel(p + q, 100.0, w);
  }

  lemma {:induction false} HaMirror(c: real, part: seq<Slot>, j: nat)
    requires j < |part|
    ensures HaOpen(MirrorTape(c, part), j) == c - HaOpen(part, j)
    ensures HaBody(MirrorTape(c, part), j) == -HaBody(part, j)
  {
    if j > 0 {
      HaMirror(c, part, j - 1);
    }
  }

  /** Every indicator column of a mirrored stretch is the mirrored column. */
  lemma RowMirror(c: real, part: seq<Slot>, j: nat)
    requires j < |part|
    ensures RowAt(MirrorTape(c, part), j) == MirrorRow(c, RowAt(part, j))
  {
    var m := MirrorTape(c, part);
    ClosesMirror(c, SlotCloses(part), SlotCloses(m), j);
    RsiColumnMirror(c, SlotCloses(part), SlotCloses(m), j);
    AtrMirror(c, part, j);
    StochasticMirror(c, part, j);
    HaMirror(c, part, j);
    hide EmaAt, MacdHist, WilderRsi, Atr20, Stochastic, HaBody, Median;
    assert SlotVolumes(m) == SlotVolumes(part);
  }

  lemma IndicatorMirror(c: real, bars: seq<Slot>, i: nat)
    requires i < |bars| && bars[i].eligible
    ensures IndicatorRow(MirrorTape(c, bars), i) == MirrorRow(c, IndicatorRow(bars, i))
  {
    hide RowAt, Segments.Start, Segments.End;
    var m := MirrorTape(c, bars);
    assert Flags(m) == Flags(bars);
    var s, e := Segments.Start(Flags(bars), i), Segments.End(Flags(bars), i);
    assert m[s..e] == MirrorTape(c, bars[s..e]);
    RowMirror(c, bars[s..e], i - s);
  }

  // ---------- the hourly context ----------

  lemma HourMirror(c: real, bars: seq<Slot>, first: int, h: int)
    ensures HourAt(MirrorTape(c, bars), first, h)
         == if HourAt(bars, first, h).Incomplete? then Incomplete else Complete(c - HourAt(bars, first, h).close)
  {
  }

  lemma {:induction false} StretchStartMirror(c: real, bars: seq<Slot>, first: int, h: int)
    requires HourAt(bars, first, h).Complete?
    ensures HourAt(MirrorTape(c, bars), first, h).Complete?
    ensures StretchStart(MirrorTape(c, bars), first, h) == StretchStart(bars, first, h)
    decreases 12 * h - first
  {
    HourMirror(c, bars, first, h);
    HourMirror(c, bars, first, h - 1);
    assert first <= 12 * h;
    hide HourAt;
    if HourAt(bars, first, h - 1).Complete? {
      StretchStartMirror(c, bars, first, h - 1);
    }
  }

  lemma EfficiencyMirror(c: real, xs: seq<real>, ys: seq<real>, j: nat)
    requires Reflects(c, xs, ys) && j < |xs|
    ensures Efficiency(ys, j) == Efficiency(xs, j)
  {
    hide Sum;
    if j >= 20 {
      assert Steps(ys)[j - 19..j + 1] == Steps(xs)[j - 19..j + 1];
    }
  }

  lemma RegimeOnMirror(c: real, xs: seq<real>, ys: seq<real>, j: nat)
    requires Reflects(c, xs, ys) && j < |xs|
    ensures RegimeOn(ys, j) == MirrorRegime(RegimeOn(xs, j))
  {
    EfficiencyMirror(c, xs, ys, j);
    EmaMirror(c, xs, ys, 20, j);
    hide Efficiency, Ema;
  }

  lemma RegimeMirror(c: real, bars: seq<Slot>, first: int, h: int)
    ensures RegimeAt(MirrorTape(c, bars), first, h) == MirrorRegime(RegimeAt(bars, first, h))
  {
    hide HourAt, RegimeOn, StretchStart, StretchEnd;
    var m := MirrorTape(c, bars);
    HourMirror(c, bars, first, h);
    if HourAt(bars, first, h).Complete? {
      StretchStartMirror(c, bars, first, h);
      var s := StretchStart(bars, first, h);
      var e, f := StretchEnd(bars, first, h), StretchEnd(m, first, h);
      var xs, ys := HourCloses(bars, first, s, e), HourCloses(m, first, s, f);
      forall k | 0 <= k <= h - s ensures ys[k] == c - xs[k] {
        HourMirror(c, bars, first, s + k);
      }
      var n := h - s + 1;
      RegimeCausal(xs, xs[..n], h - s);
      RegimeCausal(ys, ys[..n], h - s);
      RegimeOnMirror(c, xs[..n], ys[..n], h - s);
    }
  }

  lemma ContextMirror(c: real, bars: seq<Slot>, first: int, i: nat)
    requires i < |bars|
    ensures ContextAt(MirrorTape(c, bars), first, i) == MirrorContext(ContextAt(bars, first, i))
  {
    hide HourAt, RegimeOn, StretchStart, StretchEnd;
    var parent := ParentHour(first, i);
    RegimeMirror(c, bars, first, parent);
    if RegimeAt(bars, first, parent) != Unknown {
      StretchStartMirror(c, bars, first, parent);
      StretchFits(bars, first, parent);
      var lo, hi := 12 * StretchStart(bars, first, parent) - first, 12 * (parent + 1) - first;
      assert HashesIn(MirrorTape(c, bars), lo, hi) == HashesIn(bars, lo, hi);
    }
  }

  // ---------- what a bar sees ----------

  lemma PivotMirror(c: real, bars: seq<Slot>, i: nat)
    requires i < |bars|
    ensures LowPivot(MirrorTape(c, bars), i) == MirrorPivot(c, HighPivot(bars, i))
    ensures HighPivot(MirrorTape(c, bars), i) == MirrorPivot(c, LowPivot(bars, i))
  {
    hide IndicatorRow;
    if Unbroken(bars, i, 6) {
      IndicatorMirror(c, bars, i - 3);
    }
  }

  lemma GapMirror(c: real, bars: seq<Slot>, i: nat)
    requires i < |bars|
    ensures GapAbove(MirrorTape(c, bars), i) == MirrorEdges(c, GapBelow(bars, i))
    ensures GapBelow(MirrorTape(c, bars), i) == MirrorEdges(c, GapAbove(bars, i))
  {
  }

  lemma DecisionMirror(c: real, bars: seq<Slot>, first: int, i: nat)
    requires i < |bars|
    ensures var d := DecisionAt(bars, first, i);
            DecisionAt(MirrorTape(c, bars), first, i) == if d.Some? then Some(MirrorDecision(c, d.value)) else None
  {
    hide IndicatorRow, ContextAt;
    if Warm(bars, i) {
      var m := MirrorTape(c, bars);
      IndicatorMirror(c, bars, i);
      IndicatorMirror(c, bars, i - 1);
      ContextMirror(c, bars, first, i);
      assert m[i - 20..i] == MirrorTape(c, bars[i - 20..i]);
    }
  }

  lemma SeeMirror(c: real, bars: seq<Slot>, first: int, i: nat)
    requires i < |bars|
    ensures See(MirrorTape(c, bars), first, i) == MirrorSeen(c, See(bars, first, i))
  {
    PivotMirror(c, bars, i);
    GapMirror(c, bars, i);
    DecisionMirror(c, bars, first, i);
    hide LowPivot, HighPivot, GapAbove, GapBelow, DecisionAt;
  }
}
