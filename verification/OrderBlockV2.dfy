/** Order-block mitigation, second version: only a displaced break that clears the
    swing extreme forms a block, only a bar of above-average volume may be one, and
    entries are taken with the slow trend. */
module OrderBlockV2 {
  import opened Columns
  import opened Common
  import opened Zones
  import OB = OrderBlock

  datatype Config = Config(base: OB.Config, displacementAtr: real, clearanceAtr: real, smaSlow: nat)

  const VOLUME_WINDOW := 48

  predicate Displaced(b: Bar, atr: real, c: Config) {
    b.high - b.low >= Times(c.displacementAtr, atr)
  }

  /** An impulsive bar whose close clears the extreme of the previous swing window;
      a missing cell makes every comparison false. */
  predicate BreaksOut(side: Side, bars: seq<Bar>, atr: seq<Option<real>>, c: Config, i: nat)
    requires i < |bars| == |atr| && c.base.swingLength >= 1
  {
    && i > 0 && atr[i].Some? && Displaced(bars[i], atr[i].value, c)
    && var clearance := Times(c.clearanceAtr, atr[i].value);
    if side == Long then
      var high := RollingMax(Highs(bars), c.base.swingLength, i - 1);
      high.Some? && bars[i].close > high.value + clearance
    else
      var low := RollingMin(Lows(bars), c.base.swingLength, i - 1);
      low.Some? && bars[i].close < low.value - clearance
  }

  predicate LoudAt(bars: seq<Bar>, i: nat)
    requires i < |bars|
  {
    var mean := RollingMean(Volumes(bars), VOLUME_WINDOW, i);
    mean.Some? && bars[i].volume >= mean.value
  }

  function Breaks(side: Side, bars: seq<Bar>, atr: seq<Option<real>>, c: Config): (s: seq<bool>)
    requires |bars| == |atr| && c.base.swingLength >= 1
    ensures |s| == |bars| && forall i: nat :: i < |s| ==> s[i] == BreaksOut(side, bars, atr, c, i)
  {
    seq(|bars|, (i: nat) requires i < |bars| => BreaksOut(side, bars, atr, c, i))
  }

  function Loud(bars: seq<Bar>): (s: seq<bool>)
    ensures |s| == |bars| && forall i: nat :: i < |s| ==> s[i] == LoudAt(bars, i)
  {
    seq(|bars|, (i: nat) requires i < |bars| => LoudAt(bars, i))
  }

  function Filled(s: seq<Option<real>>): (m: seq<bool>)
    ensures |m| == |s| && forall i :: 0 <= i < |s| ==> m[i] == s[i].Some?
  {
    seq(|s|, i requires 0 <= i < |s| => s[i].Some?)
  }

  /** Unlike the first version, a block's identity is the row its zone was written on. */
  function Prepared(side: Side, bars: seq<Bar>, atr: seq<Option<real>>, c: Config): (b: OB.Blocks)
    requires |bars| == |atr| && c.base.swingLength >= 1
    ensures |b.marks| == |b.tops| == |b.bottoms| == |bars|
  {
    var b := OB.ColumnsOf(side, bars, Breaks(side, bars, atr, c), Loud(bars), c.base.swingLength);
    b.(marks := Filled(b.tops))
  }

  method Prepare(side: Side, bars: seq<Bar>, atr: seq<Option<real>>, c: Config) returns (b: OB.Blocks)
    requires |bars| == |atr| && c.base.swingLength >= 1
    ensures b == Prepared(side, bars, atr, c)
  {
    hide OB.FormedAt, BreaksOut, LoudAt;
    var breaks := Breaks(side, bars, atr, c);
    var tops, bottoms := OB.FillZones(side, bars, breaks, Loud(bars), c.base.swingLength);
    b := OB.Blocks(Filled(tops), tops, bottoms);
    assert tops == Prepared(side, bars, atr, c).tops;
    assert bottoms == Prepared(side, bars, atr, c).bottoms;
  }

  lemma BlocksAtZones(side: Side, bars: seq<Bar>, atr: seq<Option<real>>, c: Config)
    requires |bars| == |atr| && c.base.swingLength >= 1
    ensures var b := Prepared(side, bars, atr, c);
            SameRows(b.marks, b.tops) && SameRows(b.marks, b.bottoms)
  {
    hide OB.FormedAt, BreaksOut, LoudAt;
  }

  lemma ClearedWindow(side: Side, bars: seq<Bar>, atr: seq<Option<real>>, c: Config, p: nat)
    requires c.base.swingLength >= 1 && p < |bars| == |atr| && BreaksOut(side, bars, atr, c, p)
    ensures var n := c.base.swingLength;
            && n <= p && OB.WindowStart(n, p) == p - n
            && forall k :: p - n <= k < p ==>
                 var clearance := Times(c.clearanceAtr, atr[p].value);
                 if side == Long then bars[k].high + clearance < bars[p].close
                 else bars[k].low - clearance > bars[p].close
  {
    hide Times, Displaced;
    var n := c.base.swingLength;
    match side {
      case Long =>
        var s := Highs(bars)[p - n..p];
        assert forall k :: p - n <= k < p ==> s[k - (p - n)] == bars[k].high;
      case Short =>
        var s := Lows(bars)[p - n..p];
        assert forall k :: p - n <= k < p ==> s[k - (p - n)] == bars[k].low;
    }
  }

  /** What qualifies a block: it lies on the near side of a displaced break by at
      least the clearance, and its bar was in the swing window and loud. */
  lemma BlockQualified(side: Side, bars: seq<Bar>, atr: seq<Option<real>>, c: Config, p: nat)
    requires |bars| == |atr| && c.base.swingLength >= 1 && p < |bars| && ValidTape(bars)
    requires Prepared(side, bars, atr, c).marks[p]
    ensures var b := Prepared(side, bars, atr, c);
            var n := c.base.swingLength;
            && n <= p && atr[p].Some? && Displaced(bars[p], atr[p].value, c)
            && b.tops[p].Some? && b.bottoms[p].Some? && b.bottoms[p].value <= b.tops[p].value
            && (if side == Long then b.tops[p].value + Times(c.clearanceAtr, atr[p].value) < bars[p].close
                else bars[p].close < b.bottoms[p].value - Times(c.clearanceAtr, atr[p].value))
            && (exists ob: nat :: p - n <= ob < p && LoudAt(bars, ob)
                  && OB.ZoneOf(side, bars[ob]) == Zone(b.tops[p].value, b.bottoms[p].value))
            && forall k :: p - n <= k < p ==>
                 if side == Long then b.bottoms[p].value <= bars[k].low else bars[k].high <= b.tops[p].value
  {
    hide Times, Displaced, LoudAt, OB.BlockBar;
    assert BreaksOut(side, bars, atr, c, p);
    var n := c.base.swingLength;
    assert Breaks(side, bars, atr, c)[p];
    ClearedWindow(side, bars, atr, c, p);
    OB.BlockIsExtreme(side, bars, n, p);
    hide BreaksOut, RollingMax, RollingMin;
    var ob := OB.BlockBar(side, bars, n, p);
    assert ValidBar(bars[ob]) && LoudAt(bars, ob);
  }

  // ---------- the signal ----------

  /** Long only above the slow average, short only below it. */
  predicate WithTrend(side: Side, b: Bar, sma: real) {
    if side == Long then b.close > sma else b.close < sma
  }

  function Gated(side: Side, b: Bar, sma: real, x: Option<Intent>): Option<Intent> {
    if WithTrend(side, b, sma) then x else None
  }

  function Signal(bars: seq<Bar>, atr: seq<Option<real>>, i: nat, c: Config): Option<Intent>
    requires i < |bars| == |atr| && c.base.swingLength >= 1 && c.smaSlow >= 1
  {
    var sma := RollingMean(Closes(bars), c.smaSlow, i);
    if atr[i].None? || sma.None? || atr[i].value <= 0.0 then None
    else
      var bull, bear := Prepared(Long, bars, atr, c), Prepared(Short, bars, atr, c);
      var long := Gated(Long, bars[i], sma.value,
                        OB.SideSignal(Long, OB.RowOf(Long, bars, bull, i), bars[i], atr[i].value, c.base));
      if long.Some? then long
      else Gated(Short, bars[i], sma.value,
                 OB.SideSignal(Short, OB.RowOf(Short, bars, bear, i), bars[i], atr[i].value, c.base))
  }

  function ScanSignal(bars: seq<Bar>, atr: seq<Option<real>>, i: nat, c: Config): Option<Intent>
    requires i < |bars| == |atr| && c.base.swingLength >= 1 && c.smaSlow >= 1
  {
    var sma := RollingMean(Closes(bars), c.smaSlow, i);
    if atr[i].None? || sma.None? || atr[i].value <= 0.0 then None
    else
      var bull, bear := Prepared(Long, bars, atr, c), Prepared(Short, bars, atr, c);
      var long := Gated(Long, bars[i], sma.value, OB.SideScan(Long, bars, bull, i, atr[i].value, c.base));
      if long.Some? then long
      else Gated(Short, bars[i], sma.value, OB.SideScan(Short, bars, bear, i, atr[i].value, c.base))
  }

  /** The qualified columns, too, decide what a stateful tracker would: a block is
      spent by the first bar that reaches it, whatever the trend then was. */
  lemma SignalRefinesScan(bars: seq<Bar>, atr: seq<Option<real>>, i: nat, c: Config)
    requires i < |bars| == |atr| && c.base.swingLength >= 1 && c.smaSlow >= 1
    ensures Signal(bars, atr, i, c) == ScanSignal(bars, atr, i, c)
  {
    hide Prepared, OB.SideSignal, OB.SideScan, SameRows, OB.RowOf, RollingMean;
    BlocksAtZones(Long, bars, atr, c);
    BlocksAtZones(Short, bars, atr, c);
    if atr[i].Some? {
      OB.SideRefinesScan(Long, bars, Prepared(Long, bars, atr, c), i, atr[i].value, c.base);
      OB.SideRefinesScan(Short, bars, Prepared(Short, bars, atr, c), i, atr[i].value, c.base);
    }
  }

  /** An entry is its own side's entry, taken with the trend. */
  lemma SideOfSignal(bars: seq<Bar>, atr: seq<Option<real>>, i: nat, c: Config)
    requires i < |bars| == |atr| && c.base.swingLength >= 1 && c.smaSlow >= 1
    requires Signal(bars, atr, i, c).Some?
    ensures var side := Signal(bars, atr, i, c).value.side;
            && atr[i].Some? && atr[i].value > 0.0
            && RollingMean(Closes(bars), c.smaSlow, i).Some?
            && WithTrend(side, bars[i], RollingMean(Closes(bars), c.smaSlow, i).value)
            && OB.SideSignal(side, OB.RowOf(side, bars, Prepared(side, bars, atr, c), i), bars[i], atr[i].value,
                             c.base).Some?
  {
    hide OB.SideSignal, OB.RowOf, Prepared, RollingMean;
    var long := OB.SideSignal(Long, OB.RowOf(Long, bars, Prepared(Long, bars, atr, c), i), bars[i], atr[i].value,
                              c.base);
    var short := OB.SideSignal(Short, OB.RowOf(Short, bars, Prepared(Short, bars, atr, c), i), bars[i], atr[i].value,
                               c.base);
    if long.Some? {
      OB.SignalSide(Long, OB.RowOf(Long, bars, Prepared(Long, bars, atr, c), i), bars[i], atr[i].value, c.base);
    }
    if short.Some? {
      OB.SignalSide(Short, OB.RowOf(Short, bars, Prepared(Short, bars, atr, c), i), bars[i], atr[i].value, c.base);
    }
  }

  lemma OneEntryPerBlock(side: Side, bars: seq<Bar>, atr: seq<Option<real>>, i: nat, j: nat, c: Config)
    requires i < j < |bars| == |atr| && c.base.swingLength >= 1 && c.smaSlow >= 1
    requires var s, t := Signal(bars, atr, i, c), Signal(bars, atr, j, c);
             s.Some? && t.Some? && s.value.side == t.value.side == side
    ensures var b := Prepared(side, bars, atr, c);
            IdAt(b.marks, i).Some? && IdAt(b.marks, j).Some? && IdAt(b.marks, i) != IdAt(b.marks, j)
  {
    hide Prepared, OB.SideSignal, SameRows, OB.RowOf, IdAt, Signal;
    BlocksAtZones(side, bars, atr, c);
    var b := Prepared(side, bars, atr, c);
    SideOfSignal(bars, atr, i, c);
    SideOfSignal(bars, atr, j, c);
    OB.SideSignalsOnce(side, bars, b, i, j, atr[i].value, atr[j].value, c.base);
    OB.SignalHasBlock(side, bars, b, i, atr[i].value, c.base);
    OB.SignalHasBlock(side, bars, b, j, atr[j].value, c.base);
  }
}
