/** The order-block entries of both versions, in terms of the bars alone. */
module OrderBlockTape {
  import opened Common
  import opened Zones
  import Columns
  import OB = OrderBlock
  import V2 = OrderBlockV2

  // ---------- blocks on the bars ----------

  /** Beyond every price of the n bars before, by at least the clearance. */
  ghost predicate Clears(side: Side, bars: seq<Bar>, n: nat, p: nat, clearance: real)
    requires p < |bars|
  {
    && n <= p
    && forall k :: p - n <= k < p ==>
         if side == Long then bars[p].close > bars[k].high + clearance else bars[p].close < bars[k].low - clearance
  }

  /** The first of the n bars before p with the lowest low, or the highest high. */
  ghost predicate IsBlock(side: Side, bars: seq<Bar>, n: nat, p: nat, ob: nat)
    requires n <= p < |bars|
  {
    && p - n <= ob < p
    && (forall k :: p - n <= k < p ==>
          if side == Long then bars[ob].low <= bars[k].low else bars[ob].high >= bars[k].high)
    && (forall k :: p - n <= k < ob ==>
          if side == Long then bars[ob].low < bars[k].low else bars[ob].high > bars[k].high)
  }

  /** The wick of the block up to its body. */
  ghost predicate ZoneOn(side: Side, b: Bar, top: real, bottom: real) {
    if side == Long then bottom == b.low && top == (if b.open >= b.close then b.open else b.close)
    else top == b.high && bottom == (if b.open <= b.close then b.open else b.close)
  }

  lemma BlockIsBlock(side: Side, bars: seq<Bar>, n: nat, p: nat)
    requires 1 <= n <= p < |bars|
    ensures OB.WindowStart(n, p) == p - n && IsBlock(side, bars, n, p, OB.BlockBar(side, bars, n, p))
  {
    hide OB.ArgMin, OB.ArgMax;
    var ob := OB.BlockBar(side, bars, n, p);
    var s := if side == Long then Lows(bars)[p - n..p] else Highs(bars)[p - n..p];
    var at := ob - (p - n);
    forall k | p - n <= k < p
      ensures if side == Long then bars[ob].low <= bars[k].low && (k < ob ==> bars[ob].low < bars[k].low)
              else bars[ob].high >= bars[k].high && (k < ob ==> bars[ob].high > bars[k].high)
    {
      var j := k - (p - n);
      assert if side == Long then s[at] <= s[j] && (j < at ==> s[at] < s[j])
             else s[at] >= s[j] && (j < at ==> s[at] > s[j]);
    }
  }

  lemma OneBlock(side: Side, bars: seq<Bar>, n: nat, p: nat, a: nat, b: nat)
    requires n <= p < |bars| && IsBlock(side, bars, n, p, a) && IsBlock(side, bars, n, p, b)
    ensures a == b
  {
    match side {
      case Long => assert bars[a].low <= bars[b].low <= bars[a].low;
      case Short => assert bars[a].high >= bars[b].high >= bars[a].high;
    }
  }

  lemma BlockExactly(side: Side, bars: seq<Bar>, n: nat, p: nat, ob: nat)
    requires 1 <= n <= p < |bars|
    ensures OB.WindowStart(n, p) == p - n
    ensures OB.BlockBar(side, bars, n, p) == ob <==> IsBlock(side, bars, n, p, ob)
  {
    hide OB.BlockBar, IsBlock;
    BlockIsBlock(side, bars, n, p);
    if IsBlock(side, bars, n, p, ob) {
      OneBlock(side, bars, n, p, ob, OB.BlockBar(side, bars, n, p));
    }
  }

  lemma ZoneExactly(side: Side, b: Bar, top: real, bottom: real)
    ensures OB.ZoneOf(side, b) == Zone(top, bottom) <==> ZoneOn(side, b, top, bottom)
  {
  }

  lemma RollingOnBars(bars: seq<Bar>, n: nat, p: nat, x: real)
    requires 1 <= n && 0 < p < |bars|
    ensures var high, low := Columns.RollingMax(Highs(bars), n, p - 1), Columns.RollingMin(Lows(bars), n, p - 1);
            && (high.Some? <==> n <= p) && (low.Some? <==> n <= p)
            && (n <= p ==> (x > high.value <==> forall k :: p - n <= k < p ==> x > bars[k].high))
            && (n <= p ==> (x < low.value <==> forall k :: p - n <= k < p ==> x < bars[k].low))
  {
    if n <= p {
      var ls, hs := Lows(bars)[p - n..p], Highs(bars)[p - n..p];
      assert forall k :: p - n <= k < p ==> ls[k - (p - n)] == bars[k].low && hs[k - (p - n)] == bars[k].high;
      assert forall k :: 0 <= k < n ==> ls[k] == bars[p - n + k].low && hs[k] == bars[p - n + k].high;
    }
  }

  lemma BreakExactly(side: Side, bars: seq<Bar>, n: nat, p: nat)
    requires n >= 1 && p < |bars|
    ensures OB.BreaksOut(side, bars, n, p) <==> Clears(side, bars, n, p, 0.0)
  {
    hide Columns.RollingMax, Columns.RollingMin;
    if p > 0 {
      RollingOnBars(bars, n, p, bars[p].close);
    }
  }

  // ---------- entries on the bars ----------

  /** Every bar from the break up to before i stays off the block, and bar i comes into
      it without passing its far edge and closes this side of that edge. */
  ghost predicate ComesBack(side: Side, bars: seq<Bar>, k: nat, i: nat, top: real, bottom: real)
    requires k < i < |bars|
  {
    if side == Long then
      && (forall m :: k <= m < i ==> bars[m].low > top) && bottom <= bars[i].low <= top && bars[i].close > bottom
    else
      && (forall m :: k <= m < i ==> bars[m].high < bottom) && bottom <= bars[i].high <= top && bars[i].close < top
  }

  /** A stop beyond the far edge, and a target so many risks beyond the close. */
  ghost predicate AsksFor(side: Side, close: real, top: real, bottom: real, atr: real, c: OB.Config, x: Intent) {
    && x.side == side && x.target.Some?
    && if side == Long then
         && x.stop == bottom - Times(c.stopPad, atr) && x.stop < close
         && x.target.value == close + Times(c.takeProfitR, close - x.stop)
       else
         && x.stop == top + Times(c.stopPad, atr) && x.stop > close
         && x.target.value == close - Times(c.takeProfitR, x.stop - close)
  }

  lemma EntryExactly(side: Side, b: Bar, top: real, bottom: real, atr: real, c: OB.Config, x: Intent)
    ensures EntryAt(side, b, Zone(top, bottom), atr, c.stopPad, c.takeProfitR) == Some(x)
            <==> AsksFor(side, b.close, top, bottom, atr, c, x)
  {
    hide Times;
  }

  /** A side of the signal on any zone columns: the bar comes back to the freshest zone. */
  ghost predicate ReturnsTo(side: Side, bars: seq<Bar>, b: OB.Blocks, i: nat, atr: real, c: OB.Config, k: nat,
                            x: Intent)
    requires i < |bars| == |b.marks| && SameRows(b.marks, b.tops) && SameRows(b.marks, b.bottoms)
  {
    && k < i && Columns.Latest(b.marks, k, i) && i - k <= c.maxAge
    && ComesBack(side, bars, k, i, b.tops[k].value, b.bottoms[k].value)
    && AsksFor(side, bars[i].close, b.tops[k].value, b.bottoms[k].value, atr, c, x)
  }

  lemma SideReturns(side: Side, bars: seq<Bar>, b: OB.Blocks, i: nat, atr: real, c: OB.Config, x: Intent)
    requires i < |bars| == |b.marks| && SameRows(b.marks, b.tops) && SameRows(b.marks, b.bottoms)
    ensures OB.SideSignal(side, OB.RowOf(side, bars, b, i), bars[i], atr, c) == Some(x)
            <==> exists k: nat :: ReturnsTo(side, bars, b, i, atr, c, k, x)
  {
    hide EntryAt, AsksFor, FeatureAt, OB.RowOf, OB.SideSignal;
    var f := OB.RowOf(side, bars, b, i);
    var s := OB.SideSignal(side, f, bars[i], atr, c);
    OB.SideSignalExactly(side, bars, b, i, atr, c);
    OB.RowId(side, bars, b, i);
    RowIsFeature(side, bars, b, i);
    FeatureNamesOneBar(side, bars, b.marks, b.tops, b.bottoms, i);
    SignalsEntry(side, f, bars[i], atr, c);
    forall k: nat | k < i && Columns.Latest(b.marks, k, i)
      ensures f.id == Some(k) && f.top == b.tops[k] && f.bottom == b.bottoms[k]
    {
      Columns.LatestIsId(b.marks, k, i);
    }
    forall k: nat, y | k < i && Columns.Latest(b.marks, k, i)
      ensures var z := Zone(b.tops[k].value, b.bottoms[k].value);
              EntryAt(side, bars[i], z, atr, c.stopPad, c.takeProfitR) == Some(y)
              <==> AsksFor(side, bars[i].close, z.top, z.bottom, atr, c, y)
    {
      EntryExactly(side, bars[i], b.tops[k].value, b.bottoms[k].value, atr, c, y);
    }
    if s == Some(x) {
      var k: nat :| OB.FirstReturn(side, bars, b, k, i, atr, c);
      assert ReturnsTo(side, bars, b, i, atr, c, k, x);
    }
    if k: nat :| ReturnsTo(side, bars, b, i, atr, c, k, x) {
      assert OB.FirstReturn(side, bars, b, k, i, atr, c);
    }
  }

  lemma RowIsFeature(side: Side, bars: seq<Bar>, b: OB.Blocks, i: nat)
    requires i < |bars| == |b.marks| == |b.tops| == |b.bottoms|
    ensures OB.RowOf(side, bars, b, i) == FeatureAt(side, bars, b.marks, b.tops, b.bottoms, i)
  {
  }

  lemma SignalsEntry(side: Side, f: Feature, b: Bar, atr: real, c: OB.Config)
    ensures var s := OB.SideSignal(side, f, b, atr, c);
            s.Some? ==> f.top.Some? && f.bottom.Some?
                        && s == EntryAt(side, b, Zone(f.top.value, f.bottom.value), atr, c.stopPad, c.takeProfitR)
  {
    hide EntryAt;
  }

  // ---------- the first version ----------

  /** Bar i enters on a side: the latest break, young enough, its block, the return to
      it and what is asked for. */
  ghost predicate Enters(side: Side, bars: seq<Bar>, i: nat, atr: real, c: OB.Config, k: nat, ob: nat, top: real,
                         bottom: real, x: Intent)
    requires i < |bars|
  {
    && k < i && i - k <= c.maxAge && Clears(side, bars, c.swingLength, k, 0.0)
    && (forall m :: k < m <= i ==> !Clears(side, bars, c.swingLength, m, 0.0))
    && IsBlock(side, bars, c.swingLength, k, ob) && ZoneOn(side, bars[ob], top, bottom)
    && ComesBack(side, bars, k, i, top, bottom) && AsksFor(side, bars[i].close, top, bottom, atr, c, x)
  }

  ghost predicate EntersSomewhere(side: Side, bars: seq<Bar>, i: nat, atr: real, c: OB.Config, x: Intent)
    requires i < |bars|
  {
    exists k: nat, ob: nat, top, bottom :: Enters(side, bars, i, atr, c, k, ob, top, bottom, x)
  }

  lemma PreparedExactly(side: Side, bars: seq<Bar>, n: nat, k: nat)
    requires n >= 1 && k < |bars|
    ensures var b := OB.Prepared(side, bars, n);
            && (b.marks[k] <==> Clears(side, bars, n, k, 0.0))
            && (Clears(side, bars, n, k, 0.0) ==>
                  n <= k && b.tops[k].Some? && b.bottoms[k].Some?
                  && OB.ZoneOf(side, bars[OB.BlockBar(side, bars, n, k)]) == Zone(b.tops[k].value, b.bottoms[k].value))
  {
    hide OB.BlockBar, OB.ZoneOf, OB.BreaksOut;
    BreakExactly(side, bars, n, k);
    if Clears(side, bars, n, k, 0.0) {
      OB.WindowOfBreak(side, bars, n, k);
    }
  }

  lemma SideExactly(side: Side, bars: seq<Bar>, i: nat, atr: real, c: OB.Config, x: Intent)
    requires i < |bars| && c.swingLength >= 1
    ensures var b := OB.Prepared(side, bars, c.swingLength);
            OB.SideSignal(side, OB.RowOf(side, bars, b, i), bars[i], atr, c) == Some(x)
            <==> EntersSomewhere(side, bars, i, atr, c, x)
  {
    hide OB.Prepared, OB.SideSignal, OB.RowOf, OB.BlockBar, Clears, IsBlock, ZoneOn, AsksFor, OB.ZoneOf, ComesBack;
    var n, b := c.swingLength, OB.Prepared(side, bars, c.swingLength);
    OB.BlocksAtBreaks(side, bars, n);
    SideReturns(side, bars, b, i, atr, c, x);
    forall m: nat | m < |bars| ensures b.marks[m] <==> Clears(side, bars, n, m, 0.0) {
      PreparedExactly(side, bars, n, m);
    }
    if k: nat :| ReturnsTo(side, bars, b, i, atr, c, k, x) {
      PreparedExactly(side, bars, n, k);
      var ob := OB.BlockBar(side, bars, n, k);
      BlockExactly(side, bars, n, k, ob);
      ZoneExactly(side, bars[ob], b.tops[k].value, b.bottoms[k].value);
      assert Enters(side, bars, i, atr, c, k, ob, b.tops[k].value, b.bottoms[k].value, x);
    }
    if k: nat, ob: nat, top, bottom :| Enters(side, bars, i, atr, c, k, ob, top, bottom, x) {
      PreparedExactly(side, bars, n, k);
      BlockExactly(side, bars, n, k, ob);
      ZoneExactly(side, bars[ob], top, bottom);
      assert ReturnsTo(side, bars, b, i, atr, c, k, x);
    }
  }

  /** On every tape and bar, with a positive range average: the candidate asks for a long
      exactly when the bars enter one, and for a short when they enter one and no long. */
  lemma SignalExactly(bars: seq<Bar>, atr: seq<Option<real>>, i: nat, c: OB.Config, x: Intent)
    requires i < |bars| == |atr| && c.swingLength >= 1
    ensures OB.Signal(bars, OB.Prepared(Long, bars, c.swingLength), OB.Prepared(Short, bars, c.swingLength), atr, i, c)
            == Some(x)
            <==> && atr[i].Some? && atr[i].value > 0.0
                 && (|| EntersSomewhere(Long, bars, i, atr[i].value, c, x)
                     || (EntersSomewhere(Short, bars, i, atr[i].value, c, x)
                         && forall y :: !EntersSomewhere(Long, bars, i, atr[i].value, c, y)))
  {
    hide OB.Prepared, OB.SideSignal, OB.RowOf, EntersSomewhere;
    if atr[i].Some? {
      forall y
        ensures OB.SideSignal(Long, OB.RowOf(Long, bars, OB.Prepared(Long, bars, c.swingLength), i), bars[i],
                              atr[i].value, c) == Some(y)
                <==> EntersSomewhere(Long, bars, i, atr[i].value, c, y)
      {
        SideExactly(Long, bars, i, atr[i].value, c, y);
      }
      SideExactly(Short, bars, i, atr[i].value, c, x);
    }
  }

  // ---------- the second version ----------

  /** A bar of the given range, clear of the swing window by the given clearance. */
  ghost predicate Impulse(side: Side, bars: seq<Bar>, atr: seq<Option<real>>, c: V2.Config, k: nat)
    requires k < |bars| == |atr|
  {
    && atr[k].Some? && bars[k].high - bars[k].low >= c.displacementAtr * atr[k].value
    && Clears(side, bars, c.base.swingLength, k, c.clearanceAtr * atr[k].value)
  }

  /** At least the average volume of the forty-eight bars up to it. */
  ghost predicate Loud(bars: seq<Bar>, i: nat)
    requires i < |bars|
  {
    i >= 47 && 48.0 * bars[i].volume >= Sum(Volumes(bars)[i - 47..i + 1])
  }

  /** An impulse whose block was loud. */
  ghost predicate Qualified(side: Side, bars: seq<Bar>, atr: seq<Option<real>>, c: V2.Config, k: nat, ob: nat)
    requires k < |bars| == |atr|
  {
    && c.base.swingLength <= k && Impulse(side, bars, atr, c, k)
    && IsBlock(side, bars, c.base.swingLength, k, ob) && Loud(bars, ob)
  }

  ghost predicate Enters2(side: Side, bars: seq<Bar>, atr: seq<Option<real>>, i: nat, c: V2.Config, k: nat, ob: nat,
                          top: real, bottom: real, x: Intent)
    requires i < |bars| == |atr| && atr[i].Some?
  {
    && k < i && i - k <= c.base.maxAge && Qualified(side, bars, atr, c, k, ob)
    && (forall m: nat, o: nat :: k < m <= i ==> !Qualified(side, bars, atr, c, m, o))
    && ZoneOn(side, bars[ob], top, bottom) && ComesBack(side, bars, k, i, top, bottom)
    && AsksFor(side, bars[i].close, top, bottom, atr[i].value, c.base, x)
  }

  lemma LoudExactly(bars: seq<Bar>, i: nat)
    requires i < |bars|
    ensures V2.LoudAt(bars, i) <==> Loud(bars, i)
  {
    hide Sum;
    if i >= 47 {
      FortyEighth(Sum(Volumes(bars)[i - 47..i + 1]), bars[i].volume);
    }
  }

  lemma FortyEighth(total: real, x: real)
    ensures x >= total / 48.0 <==> 48.0 * x >= total
  {
  }

  lemma Product(a: real, b: real)
    ensures Times(a, b) == a * b
  {
  }

  lemma ImpulseExactly(side: Side, bars: seq<Bar>, atr: seq<Option<real>>, c: V2.Config, k: nat)
    requires k < |bars| == |atr| && c.base.swingLength >= 1
    ensures V2.BreaksOut(side, bars, atr, c, k) <==> Impulse(side, bars, atr, c, k)
  {
    hide Columns.RollingMax, Columns.RollingMin, Times;
    if k > 0 && atr[k].Some? {
      var clearance := c.clearanceAtr * atr[k].value;
      Product(c.clearanceAtr, atr[k].value);
      Product(c.displacementAtr, atr[k].value);
      RollingOnBars(bars, c.base.swingLength, k, bars[k].close - clearance);
      RollingOnBars(bars, c.base.swingLength, k, bars[k].close + clearance);
    }
  }

  lemma PreparedExactly2(side: Side, bars: seq<Bar>, atr: seq<Option<real>>, c: V2.Config, k: nat)
    requires k < |bars| == |atr| && c.base.swingLength >= 1
    ensures var b := V2.Prepared(side, bars, atr, c);
            && (b.marks[k] <==> exists ob: nat :: Qualified(side, bars, atr, c, k, ob))
            && (forall ob: nat :: Qualified(side, bars, atr, c, k, ob) ==>
                  b.tops[k].Some? && b.bottoms[k].Some?
                  && OB.ZoneOf(side, bars[ob]) == Zone(b.tops[k].value, b.bottoms[k].value))
  {
    hide OB.BlockBar, OB.ZoneOf, V2.BreaksOut, V2.LoudAt, Impulse, IsBlock, Loud;
    var n := c.base.swingLength;
    ImpulseExactly(side, bars, atr, c, k);
    if Impulse(side, bars, atr, c, k) {
      ImpulseLate(side, bars, atr, c, k);
      var at := OB.BlockBar(side, bars, n, k);
      BlockExactly(side, bars, n, k, at);
      LoudExactly(bars, at);
      forall ob: nat | Qualified(side, bars, atr, c, k, ob) ensures ob == at {
        BlockExactly(side, bars, n, k, ob);
      }
      assert V2.LoudAt(bars, at) ==> Qualified(side, bars, atr, c, k, at);
    }
  }

  lemma ImpulseLate(side: Side, bars: seq<Bar>, atr: seq<Option<real>>, c: V2.Config, k: nat)
    requires k < |bars| == |atr| && Impulse(side, bars, atr, c, k)
    ensures c.base.swingLength <= k
  {
  }

  ghost predicate EntersSomewhere2(side: Side, bars: seq<Bar>, atr: seq<Option<real>>, i: nat, c: V2.Config, x: Intent)
    requires i < |bars| == |atr| && atr[i].Some?
  {
    exists k: nat, ob: nat, top, bottom :: Enters2(side, bars, atr, i, c, k, ob, top, bottom, x)
  }

  lemma SideExactly2(side: Side, bars: seq<Bar>, atr: seq<Option<real>>, i: nat, c: V2.Config, x: Intent)
    requires i < |bars| == |atr| && atr[i].Some? && c.base.swingLength >= 1
    ensures var b := V2.Prepared(side, bars, atr, c);
            OB.SideSignal(side, OB.RowOf(side, bars, b, i), bars[i], atr[i].value, c.base) == Some(x)
            <==> EntersSomewhere2(side, bars, atr, i, c, x)
  {
    hide V2.Prepared, OB.SideSignal, OB.RowOf, Qualified, ZoneOn, AsksFor, OB.ZoneOf, ComesBack;
    var b := V2.Prepared(side, bars, atr, c);
    V2.BlocksAtZones(side, bars, atr, c);
    SideReturns(side, bars, b, i, atr[i].value, c.base, x);
    forall m: nat | m < |bars| ensures b.marks[m] <==> exists ob: nat :: Qualified(side, bars, atr, c, m, ob) {
      PreparedExactly2(side, bars, atr, c, m);
    }
    if k: nat :| ReturnsTo(side, bars, b, i, atr[i].value, c.base, k, x) {
      PreparedExactly2(side, bars, atr, c, k);
      var ob: nat :| Qualified(side, bars, atr, c, k, ob);
      ZoneExactly(side, BarOf(side, bars, atr, c, k, ob), b.tops[k].value, b.bottoms[k].value);
      forall m: nat, o: nat | k < m <= i ensures !Qualified(side, bars, atr, c, m, o) {
        assert !b.marks[m];
      }
      assert Enters2(side, bars, atr, i, c, k, ob, b.tops[k].value, b.bottoms[k].value, x);
    }
    if k: nat, ob: nat, top, bottom :| Enters2(side, bars, atr, i, c, k, ob, top, bottom, x) {
      PreparedExactly2(side, bars, atr, c, k);
      ZoneExactly(side, BarOf(side, bars, atr, c, k, ob), top, bottom);
      assert ReturnsTo(side, bars, b, i, atr[i].value, c.base, k, x);
    }
  }

  function BarOf(side: Side, bars: seq<Bar>, atr: seq<Option<real>>, c: V2.Config, k: nat, ob: nat): (b: Bar)
    requires k < |bars| == |atr| && Qualified(side, bars, atr, c, k, ob)
    ensures ob < |bars| && b == bars[ob]
  {
    bars[ob]
  }

  /** The close is above the mean of the last closes for a long, below it for a short. */
  ghost predicate Trending(side: Side, bars: seq<Bar>, i: nat, n: nat)
    requires i < |bars| && n >= 1
  {
    && i + 1 >= n
    && var total := Sum(Closes(bars)[i + 1 - n..i + 1]);
    if side == Long then n as real * bars[i].close > total else n as real * bars[i].close < total
  }

  lemma TrendExactly(side: Side, bars: seq<Bar>, i: nat, n: nat)
    requires i < |bars| && n >= 1
    ensures var mean := Columns.RollingMean(Closes(bars), n, i);
            && (mean.Some? <==> i + 1 >= n)
            && (mean.Some? ==> (V2.WithTrend(side, bars[i], mean.value) <==> Trending(side, bars, i, n)))
  {
    hide Sum;
    if i + 1 >= n {
      MeanCompares(Sum(Closes(bars)[i + 1 - n..i + 1]), n as real, bars[i].close);
    }
  }

  lemma MeanCompares(total: real, n: real, x: real)
    requires n > 0.0
    ensures (x > total / n <==> n * x > total) && (x < total / n <==> n * x < total)
  {
    var q := total / n;
    assert q * n == total;
    Compares(q, x, n);
    Compares(x, q, n);
  }

  lemma Compares(x: real, y: real, n: real)
    requires n > 0.0
    ensures x < y <==> n * x < n * y
  {
  }

  /** The second version likewise, with the trend and an average range in place. */
  lemma SignalExactly2(bars: seq<Bar>, atr: seq<Option<real>>, i: nat, c: V2.Config, x: Intent)
    requires i < |bars| == |atr| && c.base.swingLength >= 1 && c.smaSlow >= 1
    ensures V2.Signal(bars, atr, i, c) == Some(x)
            <==> && atr[i].Some? && atr[i].value > 0.0
                 && (|| (Trending(Long, bars, i, c.smaSlow) && EntersSomewhere2(Long, bars, atr, i, c, x))
                     || (&& Trending(Short, bars, i, c.smaSlow) && EntersSomewhere2(Short, bars, atr, i, c, x)))
  {
    hide V2.Prepared, OB.SideSignal, OB.RowOf, EntersSomewhere2, Columns.RollingMean, V2.WithTrend, Trending;
    TrendExactly(Long, bars, i, c.smaSlow);
    TrendExactly(Short, bars, i, c.smaSlow);
    OneTrend(bars, i, c.smaSlow);
    if atr[i].Some? {
      SideExactly2(Long, bars, atr, i, c, x);
      SideExactly2(Short, bars, atr, i, c, x);
    }
  }

  lemma OneTrend(bars: seq<Bar>, i: nat, n: nat)
    requires i < |bars| && n >= 1
    ensures !(Trending(Long, bars, i, n) && Trending(Short, bars, i, n))
    ensures Trending(Long, bars, i, n) || Trending(Short, bars, i, n) ==> i + 1 >= n
  {
    hide Sum;
  }
}
