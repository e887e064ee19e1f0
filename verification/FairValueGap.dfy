/** The fair-value-gap retrace candidate. Its columns are the order-block columns
    keyed by the bar that forms the gap, which is itself one edge of the gap. */
module FairValueGap {
  import opened Columns
  import opened Common
  import opened Zones

  datatype Config = Config(minGapAtr: real, stopPad: real, takeProfitR: real, maxAge: int)

  /** The gap between bar i and the bar two before it, when wide enough. */
  function GapAt(side: Side, bars: seq<Bar>, atr: seq<Option<real>>, c: Config, i: nat): Option<Zone>
    requires i < |bars| == |atr|
  {
    if i < 2 || atr[i].None? then None
    else
      var least := Times(c.minGapAtr, atr[i].value);
      if side == Long then
        if bars[i].low > bars[i - 2].high && bars[i].low - bars[i - 2].high >= least then
          Some(Zone(bars[i].low, bars[i - 2].high))
        else None
      else
        if bars[i].high < bars[i - 2].low && bars[i - 2].low - bars[i].high >= least then
          Some(Zone(bars[i - 2].low, bars[i].high))
        else None
  }

  function Formed(side: Side, bars: seq<Bar>, atr: seq<Option<real>>, c: Config): (s: seq<bool>)
    requires |bars| == |atr|
    ensures |s| == |bars| && forall i: nat :: i < |s| ==> s[i] == GapAt(side, bars, atr, c, i).Some?
  {
    seq(|bars|, (i: nat) requires i < |bars| => GapAt(side, bars, atr, c, i).Some?)
  }

  function Tops(side: Side, bars: seq<Bar>, atr: seq<Option<real>>, c: Config): (s: seq<Option<real>>)
    requires |bars| == |atr|
    ensures |s| == |bars|
    ensures forall i: nat :: i < |s| ==>
      var z := GapAt(side, bars, atr, c, i);
      s[i] == if z.Some? then Some(z.value.top) else None
  {
    seq(|bars|, (i: nat) requires i < |bars| =>
      var z := GapAt(side, bars, atr, c, i);
      if z.Some? then Some(z.value.top) else None)
  }

  function Bottoms(side: Side, bars: seq<Bar>, atr: seq<Option<real>>, c: Config): (s: seq<Option<real>>)
    requires |bars| == |atr|
    ensures |s| == |bars|
    ensures forall i: nat :: i < |s| ==>
      var z := GapAt(side, bars, atr, c, i);
      s[i] == if z.Some? then Some(z.value.bottom) else None
  {
    seq(|bars|, (i: nat) requires i < |bars| =>
      var z := GapAt(side, bars, atr, c, i);
      if z.Some? then Some(z.value.bottom) else None)
  }

  function RowAt(side: Side, bars: seq<Bar>, atr: seq<Option<real>>, c: Config, i: nat): Feature
    requires i < |bars| == |atr|
  {
    FeatureAt(side, bars, Formed(side, bars, atr, c), Tops(side, bars, atr, c), Bottoms(side, bars, atr, c), i)
  }

  function SideSignal(side: Side, f: Feature, b: Bar, atr: real, c: Config): Option<Intent> {
    if f.id.None? || f.top.None? || f.bottom.None? || f.age.None? then None
    else
      var z := Zone(f.top.value, f.bottom.value);
      if 0 < f.age.value <= c.maxAge && PriorClear(side, f.prior, z) && Retraces(side, b, z)
      then EntryAt(side, b, z, atr, c.stopPad, c.takeProfitR)
      else None
  }

  function Signal(bars: seq<Bar>, atr: seq<Option<real>>, c: Config, i: nat): Option<Intent>
    requires i < |bars| == |atr|
  {
    if atr[i].None? || atr[i].value <= 0.0 then None
    else
      var long := SideSignal(Long, RowAt(Long, bars, atr, c, i), bars[i], atr[i].value, c);
      if long.Some? then long else SideSignal(Short, RowAt(Short, bars, atr, c, i), bars[i], atr[i].value, c)
  }

  // ---------- the promised entry ----------

  /** What the candidate is documented to buy: the first bar after the formation of
      the freshest gap, within the age limit, that retraces into it. */
  ghost predicate FirstRetrace(side: Side, bars: seq<Bar>, atr: seq<Option<real>>, c: Config, k: nat, i: nat)
    requires i < |bars| == |atr|
  {
    && k < i && Latest(Formed(side, bars, atr, c), k, i) && i - k <= c.maxAge
    && var z := GapAt(side, bars, atr, c, k).value;
    ClearBetween(side, bars, z, k + 1, i) && Retraces(side, bars[i], z)
  }

  /** Bar k stands clear of the bar two before it by at least the least width. */
  ghost predicate Gaps(side: Side, bars: seq<Bar>, atr: seq<Option<real>>, c: Config, k: nat)
    requires k < |bars| == |atr|
  {
    && k >= 2 && atr[k].Some?
    && var width := if side == Long then bars[k].low - bars[k - 2].high else bars[k - 2].low - bars[k].high;
    width > 0.0 && width >= c.minGapAtr * atr[k].value
  }

  /** In prices: no bar between the latest gap and this one comes back to it, and this
      one does, without passing its far edge, and closes this side of that edge. */
  lemma RetraceInPrices(side: Side, bars: seq<Bar>, atr: seq<Option<real>>, c: Config, k: nat, i: nat)
    requires i < |bars| == |atr|
    ensures FirstRetrace(side, bars, atr, c, k, i)
            <==> && k < i && i - k <= c.maxAge && Gaps(side, bars, atr, c, k)
                 && (forall m :: k < m <= i ==> !Gaps(side, bars, atr, c, m))
                 && if side == Long then
                      && (forall m :: k < m < i ==> bars[m].low > bars[k].low)
                      && bars[k - 2].high <= bars[i].low <= bars[k].low && bars[i].close > bars[k - 2].high
                    else
                      && (forall m :: k < m < i ==> bars[m].high < bars[k].high)
                      && bars[k].high <= bars[i].high <= bars[k - 2].low && bars[i].close < bars[k - 2].low
  {
    forall m: nat | m < |bars| ensures Formed(side, bars, atr, c)[m] <==> Gaps(side, bars, atr, c, m) {
    }
    if k < i && Gaps(side, bars, atr, c, k) {
      assert GapAt(side, bars, atr, c, k)
          == Some(if side == Long then Zone(bars[k].low, bars[k - 2].high) else Zone(bars[k - 2].low, bars[k].high));
    }
    hide Gaps, GapAt;
  }

  lemma SameGapRows(side: Side, bars: seq<Bar>, atr: seq<Option<real>>, c: Config)
    requires |bars| == |atr|
    ensures SameRows(Formed(side, bars, atr, c), Tops(side, bars, atr, c))
    ensures SameRows(Formed(side, bars, atr, c), Bottoms(side, bars, atr, c))
  {
    hide GapAt;
  }

  /** After the formation bar the prior extreme can never be clear of the gap: the
      formation bar is in it, and its own extreme is the gap's near edge. */
  lemma PriorNeverClear(side: Side, bars: seq<Bar>, atr: seq<Option<real>>, c: Config, i: nat)
    requires i < |bars| == |atr|
    requires var f := RowAt(side, bars, atr, c, i);
             f.id.Some? && f.age.Some? && f.age.value > 0
    ensures var f := RowAt(side, bars, atr, c, i);
            f.top.Some? && f.bottom.Some? && !PriorClear(side, f.prior, Zone(f.top.value, f.bottom.value))
  {
    hide FeatureAt, PriorClear, Times;
    SameGapRows(side, bars, atr, c);
    FeatureNamesOneBar(side, bars, Formed(side, bars, atr, c), Tops(side, bars, atr, c), Bottoms(side, bars, atr, c),
                       i);
    var f := RowAt(side, bars, atr, c, i);
    var k := f.id.value;
    assert !Clear(side, bars[k], Zone(f.top.value, f.bottom.value));
    assert k < i;
  }

  /** The candidate never signals, on any tape, at any bar, with any settings. */
  lemma NeverSignals(bars: seq<Bar>, atr: seq<Option<real>>, c: Config, i: nat)
    requires i < |bars| == |atr|
    ensures Signal(bars, atr, c, i).None?
  {
    hide RowAt, PriorClear, Retraces, EntryAt;
    if atr[i].Some? {
      SideNeverSignals(Long, bars, atr, c, i);
      SideNeverSignals(Short, bars, atr, c, i);
    }
  }

  lemma SideNeverSignals(side: Side, bars: seq<Bar>, atr: seq<Option<real>>, c: Config, i: nat)
    requires i < |bars| == |atr| && atr[i].Some?
    ensures SideSignal(side, RowAt(side, bars, atr, c, i), bars[i], atr[i].value, c).None?
  {
    hide RowAt, PriorClear, Retraces, EntryAt;
    var f := RowAt(side, bars, atr, c, i);
    if f.id.Some? && f.age.Some? && f.age.value > 0 {
      PriorNeverClear(side, bars, atr, c, i);
    }
  }

  /** At every promised entry each other test of the columns passes, and with a
      positive ATR and a pad that is not negative there is risk to take: only the
      first-retrace test stands in the way. */
  lemma OnlyTheRetraceTestFails(side: Side, bars: seq<Bar>, atr: seq<Option<real>>, c: Config, k: nat, i: nat)
    requires i < |bars| == |atr| && FirstRetrace(side, bars, atr, c, k, i)
    ensures var f := RowAt(side, bars, atr, c, i);
            && f.id == Some(k) && f.age == Some(i - k) && 0 < i - k <= c.maxAge
            && f.top.Some? && f.bottom.Some?
            && var z := Zone(f.top.value, f.bottom.value);
            && Retraces(side, bars[i], z)
            && !PriorClear(side, f.prior, z)
            && ClearBetween(side, bars, z, k + 1, i)
            && (atr[i].Some? && atr[i].value > 0.0 && c.stopPad >= 0.0 ==>
                  EntryAt(side, bars[i], z, atr[i].value, c.stopPad, c.takeProfitR).Some?)
  {
    hide FeatureAt, PriorClear, GapAt, Retraces, Clear, EntryAt;
    SameGapRows(side, bars, atr, c);
    var marks := Formed(side, bars, atr, c);
    FeatureNamesOneBar(side, bars, marks, Tops(side, bars, atr, c), Bottoms(side, bars, atr, c), i);
    LatestIsId(marks, k, i);
    RowId(side, bars, atr, c, i);
    PriorNeverClear(side, bars, atr, c, i);
    var f := RowAt(side, bars, atr, c, i);
    if atr[i].Some? && atr[i].value > 0.0 && c.stopPad >= 0.0 {
      EntryExists(side, bars[i], Zone(f.top.value, f.bottom.value), atr[i].value, c.stopPad, c.takeProfitR);
    }
  }

  lemma RowId(side: Side, bars: seq<Bar>, atr: seq<Option<real>>, c: Config, i: nat)
    requires i < |bars| == |atr|
    ensures RowAt(side, bars, atr, c, i).id == IdAt(Formed(side, bars, atr, c), i)
  {
  }

  /** A corollary of NeverSignals: the signal agrees with its documentation at a bar
      exactly when no first retrace is due there. */
  lemma AgreesOnlyWhenNothingIsDue(bars: seq<Bar>, atr: seq<Option<real>>, c: Config, i: nat)
    requires i < |bars| == |atr|
    ensures var due := exists side, k :: FirstRetrace(side, bars, atr, c, k, i);
            (Signal(bars, atr, c, i).Some? <==> due) <==> !due
  {
    hide Signal, FirstRetrace;
    NeverSignals(bars, atr, c, i);
  }

  /** A gap formed by bar 4 and first retraced by bar 5. */
  const RETRACED: seq<Bar> := [
    Bar(0, 95.0, 100.0, 90.0, 99.0, 1.0), Bar(1, 95.0, 100.0, 90.0, 99.0, 1.0), Bar(2, 95.0, 100.0, 90.0, 99.0, 1.0),
    Bar(3, 99.0, 112.0, 98.0, 111.0, 1.0), Bar(4, 111.0, 120.0, 110.0, 118.0, 1.0),
    Bar(5, 112.0, 113.0, 105.0, 108.0, 1.0), Bar(6, 108.0, 109.0, 107.0, 108.0, 1.0)]

  /** First retraces do occur after the warm-up, with the candidate's own ATR and
      its default settings but the window, and go unsignalled. */
  lemma RetraceOccurs()
    ensures var atr, c := Columns.Atr(RETRACED, 1), Config(0.25, 0.20, 2.0, 72);
            && ValidTape(RETRACED)
            && FirstRetrace(Long, RETRACED, atr, c, 4, 5) && atr[5].Some? && atr[5].value > 0.0
            && Signal(RETRACED, atr, c, 5).None?
  {
    var atr, c := Columns.Atr(RETRACED, 1), Config(0.25, 0.20, 2.0, 72);
    AtrOfOneBar(RETRACED, 4);
    AtrOfOneBar(RETRACED, 5);
    hide AtrAt;
    assert GapAt(Long, RETRACED, atr, c, 4) == Some(Zone(110.0, 100.0));
    assert GapAt(Long, RETRACED, atr, c, 5).None?;
    NeverSignals(RETRACED, atr, c, 5);
  }
}
