/** Order-block mitigation, first version: a structure break names the extreme bar of
    the preceding swing window as a block, and the entry is the first bar since the
    break to come back to it. */
module OrderBlock {
  import opened Columns
  import opened Common
  import opened Zones

  datatype Config = Config(swingLength: nat, stopPad: real, takeProfitR: real, maxAge: int)

  /** The zone columns of one side before they are filled forward, and the rows that
      start a block. */
  datatype Blocks = Blocks(marks: seq<bool>, tops: seq<Option<real>>, bottoms: seq<Option<real>>)

  // ---------- the block of a break ----------

  /** The first position of the smallest value. */
  function ArgMin(s: seq<real>): (k: nat)
    requires |s| > 0
    ensures k < |s|
    ensures forall j :: 0 <= j < |s| ==> s[k] <= s[j]
    ensures forall j :: 0 <= j < k ==> s[k] < s[j]
  {
    if |s| == 1 then 0
    else
      var k := ArgMin(s[..|s| - 1]);
      if s[|s| - 1] < s[k] then |s| - 1 else k
  }

  /** The first position of the largest value. */
  function ArgMax(s: seq<real>): (k: nat)
    requires |s| > 0
    ensures k < |s|
    ensures forall j :: 0 <= j < |s| ==> s[j] <= s[k]
    ensures forall j :: 0 <= j < k ==> s[j] < s[k]
  {
    if |s| == 1 then 0
    else
      var k := ArgMax(s[..|s| - 1]);
      if s[|s| - 1] > s[k] then |s| - 1 else k
  }

  function WindowStart(n: nat, p: nat): (start: nat)
    ensures start <= p
  {
    if p >= n then p - n else 0
  }

  function BlockBar(side: Side, bars: seq<Bar>, n: nat, p: nat): (ob: nat)
    requires p <= |bars| && WindowStart(n, p) < p
    ensures WindowStart(n, p) <= ob < p
  {
    var start := WindowStart(n, p);
    if side == Long then start + ArgMin(Lows(bars)[start..p]) else start + ArgMax(Highs(bars)[start..p])
  }

  function ZoneOf(side: Side, b: Bar): Zone {
    if side == Long then Zone(Max(b.open, b.close), b.low) else Zone(b.high, Min(b.open, b.close))
  }

  /** The zone a break at p forms, if any; usable says which bars may be blocks. */
  function FormedAt(side: Side, bars: seq<Bar>, breaks: seq<bool>, usable: seq<bool>, n: nat, p: nat): Option<Zone>
    requires p < |bars| == |breaks| == |usable|
  {
    if !breaks[p] || WindowStart(n, p) >= p || !usable[BlockBar(side, bars, n, p)] then None
    else Some(ZoneOf(side, bars[BlockBar(side, bars, n, p)]))
  }

  function TopOf(z: Option<Zone>): Option<real> {
    if z.Some? then Some(z.value.top) else None
  }

  function BottomOf(z: Option<Zone>): Option<real> {
    if z.Some? then Some(z.value.bottom) else None
  }

  /** Writes the zone columns in place at the break rows. */
  method FillZones(side: Side, bars: seq<Bar>, breaks: seq<bool>, usable: seq<bool>, n: nat)
    returns (tops: seq<Option<real>>, bottoms: seq<Option<real>>)
    requires |bars| == |breaks| == |usable|
    ensures |tops| == |bottoms| == |bars|
    ensures forall p: nat :: p < |bars| ==> tops[p] == TopOf(FormedAt(side, bars, breaks, usable, n, p))
    ensures forall p: nat :: p < |bars| ==> bottoms[p] == BottomOf(FormedAt(side, bars, breaks, usable, n, p))
  {
    hide BlockBar;
    var zoneTop := new Option<real>[|bars|](_ => None);
    var zoneBottom := new Option<real>[|bars|](_ => None);
    for p := 0 to |bars|
      invariant forall k: nat :: k < p ==> zoneTop[k] == TopOf(FormedAt(side, bars, breaks, usable, n, k))
      invariant forall k: nat :: k < p ==> zoneBottom[k] == BottomOf(FormedAt(side, bars, breaks, usable, n, k))
      invariant forall k: nat :: p <= k < |bars| ==> zoneTop[k] == None && zoneBottom[k] == None
    {
      if breaks[p] {
        if WindowStart(n, p) >= p {
          continue;
        }
        var ob := BlockBar(side, bars, n, p);
        if !usable[ob] {
          continue;
        }
        if side == Long {
          zoneTop[p] := Some(Max(bars[ob].open, bars[ob].close));
          zoneBottom[p] := Some(bars[ob].low);
        } else {
          zoneTop[p] := Some(bars[ob].high);
          zoneBottom[p] := Some(Min(bars[ob].open, bars[ob].close));
        }
      }
    }
    return zoneTop[..], zoneBottom[..];
  }

  function ColumnsOf(side: Side, bars: seq<Bar>, breaks: seq<bool>, usable: seq<bool>, n: nat): (b: Blocks)
    requires |bars| == |breaks| == |usable|
    ensures |b.marks| == |b.tops| == |b.bottoms| == |bars|
  {
    Blocks(breaks,
           seq(|bars|, (p: nat) requires p < |bars| => TopOf(FormedAt(side, bars, breaks, usable, n, p))),
           seq(|bars|, (p: nat) requires p < |bars| => BottomOf(FormedAt(side, bars, breaks, usable, n, p))))
  }

  // ---------- preparing the columns ----------

  /** The close passes the extreme of the previous n bars. */
  predicate BreaksOut(side: Side, bars: seq<Bar>, n: nat, i: nat)
    requires i < |bars| && n >= 1
  {
    i > 0
    && if side == Long then
         var high := RollingMax(Highs(bars), n, i - 1);
         high.Some? && bars[i].close > high.value
       else
         var low := RollingMin(Lows(bars), n, i - 1);
         low.Some? && bars[i].close < low.value
  }

  function Breaks(side: Side, bars: seq<Bar>, n: nat): (s: seq<bool>)
    requires n >= 1
    ensures |s| == |bars| && forall i: nat :: i < |s| ==> s[i] == BreaksOut(side, bars, n, i)
  {
    seq(|bars|, (i: nat) requires i < |bars| => BreaksOut(side, bars, n, i))
  }

  function Prepared(side: Side, bars: seq<Bar>, n: nat): (b: Blocks)
    requires n >= 1
    ensures |b.marks| == |b.tops| == |b.bottoms| == |bars|
  {
    ColumnsOf(side, bars, Breaks(side, bars, n), seq(|bars|, i => true), n)
  }

  method Prepare(side: Side, bars: seq<Bar>, n: nat) returns (b: Blocks)
    requires n >= 1
    ensures b == Prepared(side, bars, n)
  {
    hide FormedAt, BreaksOut;
    var breaks := Breaks(side, bars, n);
    var tops, bottoms := FillZones(side, bars, breaks, seq(|bars|, i => true), n);
    b := Blocks(breaks, tops, bottoms);
    assert tops == Prepared(side, bars, n).tops;
    assert bottoms == Prepared(side, bars, n).bottoms;
  }

  lemma WindowOfBreak(side: Side, bars: seq<Bar>, n: nat, p: nat)
    requires n >= 1 && p < |bars| && BreaksOut(side, bars, n, p)
    ensures n <= p && WindowStart(n, p) == p - n
    ensures forall k :: p - n <= k < p ==>
              if side == Long then bars[k].high < bars[p].close else bars[k].low > bars[p].close
  {
    match side {
      case Long =>
        var s := Highs(bars)[p - n..p];
        assert forall k :: p - n <= k < p ==> s[k - (p - n)] == bars[k].high;
      case Short =>
        var s := Lows(bars)[p - n..p];
        assert forall k :: p - n <= k < p ==> s[k - (p - n)] == bars[k].low;
    }
  }

  /** Every break starts a block, so the three columns are filled on the same rows. */
  lemma BlocksAtBreaks(side: Side, bars: seq<Bar>, n: nat)
    requires n >= 1
    ensures var b := Prepared(side, bars, n);
            SameRows(b.marks, b.tops) && SameRows(b.marks, b.bottoms)
  {
    hide BreaksOut, BlockBar, ZoneOf;
    forall p: nat | p < |bars| && BreaksOut(side, bars, n, p) ensures WindowStart(n, p) < p {
      WindowOfBreak(side, bars, n, p);
    }
  }

  /** A block lies wholly on the near side of its break: bottom <= top < close for a
      bullish one, mirrored for a bearish one. Its far edge is the extreme of the
      whole swing window. */
  lemma BlockBeforeBreak(side: Side, bars: seq<Bar>, n: nat, p: nat)
    requires n >= 1 && p < |bars| && ValidTape(bars) && BreaksOut(side, bars, n, p)
    ensures var b := Prepared(side, bars, n);
            && b.tops[p].Some? && b.bottoms[p].Some?
            && b.bottoms[p].value <= b.tops[p].value
            && (if side == Long then b.tops[p].value < bars[p].close else bars[p].close < b.bottoms[p].value)
            && forall k :: p - n <= k < p ==>
                 if side == Long then b.bottoms[p].value <= bars[k].low else bars[k].high <= b.tops[p].value
  {
    hide BreaksOut, BlockBar;
    WindowOfBreak(side, bars, n, p);
    var ob := BlockBar(side, bars, n, p);
    assert ValidBar(bars[ob]);
    assert Breaks(side, bars, n)[p];
    BlockIsExtreme(side, bars, n, p);
  }

  lemma BlockIsExtreme(side: Side, bars: seq<Bar>, n: nat, p: nat)
    requires n >= 1 && n <= p < |bars|
    ensures WindowStart(n, p) == p - n
    ensures forall k :: p - n <= k < p ==>
              if side == Long then bars[BlockBar(side, bars, n, p)].low <= bars[k].low
              else bars[k].high <= bars[BlockBar(side, bars, n, p)].high
  {
    match side {
      case Long =>
        var s := Lows(bars)[p - n..p];
        assert forall k :: p - n <= k < p ==> s[k - (p - n)] == bars[k].low;
      case Short =>
        var s := Highs(bars)[p - n..p];
        assert forall k :: p - n <= k < p ==> s[k - (p - n)] == bars[k].high;
    }
  }

  // ---------- the signal ----------

  /** One side of the signal, read off a row of columns. */
  function SideSignal(side: Side, f: Feature, b: Bar, atr: real, c: Config): Option<Intent> {
    if f.id.None? || f.top.None? || f.bottom.None? || f.age.None? then None
    else
      var z := Zone(f.top.value, f.bottom.value);
      var firstTouch := PriorClear(side, f.prior, z);
      var priorHeld := f.prior.Some? ==> if side == Long then f.prior.value > z.bottom else f.prior.value < z.top;
      if 0 < f.age.value <= c.maxAge && firstTouch && priorHeld && Retraces(side, b, z)
      then EntryAt(side, b, z, atr, c.stopPad, c.takeProfitR)
      else None
  }

  function RowOf(side: Side, bars: seq<Bar>, b: Blocks, i: nat): Feature
    requires i < |bars| == |b.marks| == |b.tops| == |b.bottoms|
  {
    FeatureAt(side, bars, b.marks, b.tops, b.bottoms, i)
  }

  function Signal(bars: seq<Bar>, bull: Blocks, bear: Blocks, atr: seq<Option<real>>, i: nat, c: Config): Option<Intent>
    requires i < |bars| == |bull.marks| == |bull.tops| == |bull.bottoms| == |atr|
    requires |bars| == |bear.marks| == |bear.tops| == |bear.bottoms|
  {
    if atr[i].None? || atr[i].value <= 0.0 then None
    else
      var long := SideSignal(Long, RowOf(Long, bars, bull, i), bars[i], atr[i].value, c);
      if long.Some? then long else SideSignal(Short, RowOf(Short, bars, bear, i), bars[i], atr[i].value, c)
  }

  // ---------- the stateful reading ----------

  /** One side of the signal as a tracker would decide it: the freshest block must
      be untouched up to the previous bar. */
  function SideScan(side: Side, bars: seq<Bar>, b: Blocks, i: nat, atr: real, c: Config): Option<Intent>
    requires i < |bars| == |b.marks| == |b.tops| == |b.bottoms|
  {
    if i == 0 || b.tops[i].Some? then None
    else
      match Track(side, bars, b.tops, b.bottoms, i - 1)
      case None => None
      case Some(t) =>
        if t.untouched && i - t.id <= c.maxAge && Retraces(side, bars[i], t.zone)
        then EntryAt(side, bars[i], t.zone, atr, c.stopPad, c.takeProfitR)
        else None
  }

  function ScanSignal(bars: seq<Bar>, bull: Blocks, bear: Blocks, atr: seq<Option<real>>, i: nat, c: Config)
    : Option<Intent>
    requires i < |bars| == |bull.marks| == |bull.tops| == |bull.bottoms| == |atr|
    requires |bars| == |bear.marks| == |bear.tops| == |bear.bottoms|
  {
    if atr[i].None? || atr[i].value <= 0.0 then None
    else
      var long := SideScan(Long, bars, bull, i, atr[i].value, c);
      if long.Some? then long else SideScan(Short, bars, bear, i, atr[i].value, c)
  }

  lemma SideRefinesScan(side: Side, bars: seq<Bar>, b: Blocks, i: nat, atr: real, c: Config)
    requires i < |bars| == |b.marks| && SameRows(b.marks, b.tops) && SameRows(b.marks, b.bottoms)
    ensures SideSignal(side, RowOf(side, bars, b, i), bars[i], atr, c) == SideScan(side, bars, b, i, atr, c)
  {
    hide FeatureAt, IdAt, EntryAt, Track, Latest;
    var f := FeatureAt(side, bars, b.marks, b.tops, b.bottoms, i);
    assert f.id == IdAt(b.marks, i) by {
      RowId(side, bars, b, i);
    }
    FeatureNamesOneBar(side, bars, b.marks, b.tops, b.bottoms, i);
    if i > 0 {
      ColumnsAreTracker(side, bars, b.marks, b.tops, b.bottoms, i - 1);
      if !b.marks[i] {
        SameId(b.marks, i);
      } else {
        OwnId(b.marks, i);
      }
    } else if b.marks[0] {
      OwnId(b.marks, 0);
    }
  }

  lemma RowId(side: Side, bars: seq<Bar>, b: Blocks, i: nat)
    requires i < |bars| == |b.marks| == |b.tops| == |b.bottoms|
    ensures RowOf(side, bars, b, i).id == IdAt(b.marks, i)
  {
  }

  lemma SameId(marks: seq<bool>, i: nat)
    requires 0 < i < |marks| && !marks[i]
    ensures IdAt(marks, i) == IdAt(marks, i - 1)
  {
  }

  lemma OwnId(marks: seq<bool>, i: nat)
    requires i < |marks| && marks[i]
    ensures IdAt(marks, i) == Some(i)
  {
  }

  /** The stateless columns decide exactly what a stateful tracker of the freshest
      block would, at every bar of every tape. */
  lemma SignalRefinesScan(bars: seq<Bar>, n: nat, atr: seq<Option<real>>, i: nat, c: Config)
    requires n >= 1 && i < |bars| == |atr|
    ensures var bull, bear := Prepared(Long, bars, n), Prepared(Short, bars, n);
            Signal(bars, bull, bear, atr, i, c) == ScanSignal(bars, bull, bear, atr, i, c)
  {
    hide Prepared, SideSignal, SideScan, SameRows;
    var bull, bear := Prepared(Long, bars, n), Prepared(Short, bars, n);
    BlocksAtBreaks(Long, bars, n);
    BlocksAtBreaks(Short, bars, n);
    if atr[i].Some? {
      SideRefinesScan(Long, bars, bull, i, atr[i].value, c);
      SideRefinesScan(Short, bars, bear, i, atr[i].value, c);
    }
  }

  /** Exactly when a side signals: the latest block formed at an earlier bar within
      the age limit, every bar from its break on stayed clear of it, and this bar
      retraces into it with positive risk. */
  ghost predicate FirstReturn(side: Side, bars: seq<Bar>, b: Blocks, k: nat, i: nat, atr: real, c: Config)
    requires i < |bars| == |b.marks| && SameRows(b.marks, b.tops) && SameRows(b.marks, b.bottoms)
  {
    && k < i && Latest(b.marks, k, i) && i - k <= c.maxAge
    && var z := Zone(b.tops[k].value, b.bottoms[k].value);
    ClearBetween(side, bars, z, k, i) && Retraces(side, bars[i], z)
      && EntryAt(side, bars[i], z, atr, c.stopPad, c.takeProfitR).Some?
  }

  lemma SideSignalExactly(side: Side, bars: seq<Bar>, b: Blocks, i: nat, atr: real, c: Config)
    requires i < |bars| == |b.marks| && SameRows(b.marks, b.tops) && SameRows(b.marks, b.bottoms)
    ensures SideSignal(side, RowOf(side, bars, b, i), bars[i], atr, c).Some?
            <==> exists k: nat :: FirstReturn(side, bars, b, k, i, atr, c)
  {
    hide FeatureAt, EntryAt, Clear, Latest, IdAt;
    FeatureNamesOneBar(side, bars, b.marks, b.tops, b.bottoms, i);
    RowId(side, bars, b, i);
    var f := RowOf(side, bars, b, i);
    if SideSignal(side, f, bars[i], atr, c).Some? {
      assert FirstReturn(side, bars, b, f.id.value, i, atr, c);
    }
    forall k: nat | FirstReturn(side, bars, b, k, i, atr, c) ensures SideSignal(side, f, bars[i], atr, c).Some? {
      LatestIsId(b.marks, k, i);
      FarEdgeHeld(side, bars, b.marks, b.tops, b.bottoms, i);
    }
  }

  /** A bar that retraces proves bottom <= top, so staying clear of the near edge is
      staying clear of the far one. */
  lemma FarEdgeHeld(side: Side, bars: seq<Bar>, marks: seq<bool>, tops: seq<Option<real>>, bottoms: seq<Option<real>>,
                    i: nat)
    requires i < |bars| == |marks| == |tops| == |bottoms|
    ensures var f := FeatureAt(side, bars, marks, tops, bottoms, i);
            f.top.Some? && f.bottom.Some? && f.prior.Some? && f.bottom.value <= f.top.value
            && PriorClear(side, f.prior, Zone(f.top.value, f.bottom.value))
            ==> if side == Long then f.prior.value > f.bottom.value else f.prior.value < f.top.value
  {
    hide FfillAt, IdAt, Prior;
  }

  /** A side never signals twice on the same block. */
  lemma SideSignalsOnce(side: Side, bars: seq<Bar>, b: Blocks, i: nat, j: nat, atrI: real, atrJ: real, c: Config)
    requires i < j < |bars| == |b.marks| && SameRows(b.marks, b.tops) && SameRows(b.marks, b.bottoms)
    requires SideSignal(side, RowOf(side, bars, b, i), bars[i], atrI, c).Some?
    requires SideSignal(side, RowOf(side, bars, b, j), bars[j], atrJ, c).Some?
    ensures IdAt(b.marks, i) != IdAt(b.marks, j)
  {
    hide EntryAt, FeatureAt, IdAt, Clear, Retraces, Latest;
    RowId(side, bars, b, i);
    RowId(side, bars, b, j);
    FeatureNamesOneBar(side, bars, b.marks, b.tops, b.bottoms, i);
    FeatureNamesOneBar(side, bars, b.marks, b.tops, b.bottoms, j);
    if IdAt(b.marks, i) == IdAt(b.marks, j) {
      var f := RowOf(side, bars, b, i);
      RetraceSpends(side, bars, Zone(f.top.value, f.bottom.value), f.id.value, i, j);
    }
  }

  lemma SignalSide(side: Side, f: Feature, b: Bar, atr: real, c: Config)
    requires SideSignal(side, f, b, atr, c).Some?
    ensures SideSignal(side, f, b, atr, c).value.side == side
  {
    hide Times, Retraces, PriorClear;
  }

  /** At most one entry per block and side, over a whole tape. */
  lemma OneEntryPerBlock(side: Side, bars: seq<Bar>, n: nat, atr: seq<Option<real>>, i: nat, j: nat, c: Config)
    requires n >= 1 && i < j < |bars| == |atr|
    requires var bull, bear := Prepared(Long, bars, n), Prepared(Short, bars, n);
             var s, t := Signal(bars, bull, bear, atr, i, c), Signal(bars, bull, bear, atr, j, c);
             s.Some? && t.Some? && s.value.side == t.value.side == side
    ensures var b := Prepared(side, bars, n);
            IdAt(b.marks, i).Some? && IdAt(b.marks, j).Some? && IdAt(b.marks, i) != IdAt(b.marks, j)
  {
    hide Prepared, SideSignal, SameRows, RowOf, IdAt;
    BlocksAtBreaks(side, bars, n);
    var b := Prepared(side, bars, n);
    SideOfSignal(bars, Prepared(Long, bars, n), Prepared(Short, bars, n), atr, i, c);
    SideOfSignal(bars, Prepared(Long, bars, n), Prepared(Short, bars, n), atr, j, c);
    SideSignalsOnce(side, bars, b, i, j, atr[i].value, atr[j].value, c);
    SignalHasBlock(side, bars, b, i, atr[i].value, c);
    SignalHasBlock(side, bars, b, j, atr[j].value, c);
  }

  /** An entry on a side comes from that side's columns. */
  lemma SideOfSignal(bars: seq<Bar>, bull: Blocks, bear: Blocks, atr: seq<Option<real>>, i: nat, c: Config)
    requires i < |bars| == |bull.marks| == |bull.tops| == |bull.bottoms| == |atr|
    requires |bars| == |bear.marks| == |bear.tops| == |bear.bottoms|
    requires Signal(bars, bull, bear, atr, i, c).Some?
    ensures atr[i].Some? && atr[i].value > 0.0
    ensures var side := Signal(bars, bull, bear, atr, i, c).value.side;
            SideSignal(side, RowOf(side, bars, if side == Long then bull else bear, i), bars[i], atr[i].value, c).Some?
  {
    hide SideSignal, RowOf;
    if SideSignal(Long, RowOf(Long, bars, bull, i), bars[i], atr[i].value, c).Some? {
      SignalSide(Long, RowOf(Long, bars, bull, i), bars[i], atr[i].value, c);
    } else {
      SignalSide(Short, RowOf(Short, bars, bear, i), bars[i], atr[i].value, c);
    }
  }

  lemma SignalHasBlock(side: Side, bars: seq<Bar>, b: Blocks, i: nat, atr: real, c: Config)
    requires i < |bars| == |b.marks| == |b.tops| == |b.bottoms|
    requires SideSignal(side, RowOf(side, bars, b, i), bars[i], atr, c).Some?
    ensures IdAt(b.marks, i).Some?
  {
    hide FfillAt;
  }

  /** The promise is an entry on the first later bar that comes back to the block.
      The columns start at the break bar itself, so such a bar is an entry exactly
      when the break bar stayed clear of the block. */
  lemma FirstLaterReturn(side: Side, bars: seq<Bar>, b: Blocks, k: nat, i: nat, atr: real, c: Config)
    requires k < i < |bars| == |b.marks| && SameRows(b.marks, b.tops) && SameRows(b.marks, b.bottoms)
    requires Latest(b.marks, k, i) && i - k <= c.maxAge
    requires var z := Zone(b.tops[k].value, b.bottoms[k].value);
             ClearBetween(side, bars, z, k + 1, i) && Retraces(side, bars[i], z)
               && EntryAt(side, bars[i], z, atr, c.stopPad, c.takeProfitR).Some?
    ensures SideSignal(side, RowOf(side, bars, b, i), bars[i], atr, c).Some?
            <==> Clear(side, bars[k], Zone(b.tops[k].value, b.bottoms[k].value))
  {
    hide FeatureAt, EntryAt, Clear, Retraces, IdAt, RowOf, SideSignal;
    SideSignalExactly(side, bars, b, i, atr, c);
    LatestIsId(b.marks, k, i);
    forall m: nat | FirstReturn(side, bars, b, m, i, atr, c) ensures m == k {
      LatestIsId(b.marks, m, i);
    }
    if Clear(side, bars[k], Zone(b.tops[k].value, b.bottoms[k].value)) {
      assert FirstReturn(side, bars, b, k, i, atr, c);
    }
  }

  /** A block on bar 2, broken by bar 3 with the given low and revisited by bar 4. */
  function BrokenTape(low: real): seq<Bar> {
    [Bar(0, 95.0, 100.0, 90.0, 96.0, 1.0), Bar(1, 95.0, 100.0, 90.0, 96.0, 1.0), Bar(2, 95.0, 100.0, 90.0, 96.0, 1.0),
     Bar(3, 110.0, 121.0, low, 120.0, 1.0), Bar(4, 100.0, 101.0, 94.0, 97.0, 1.0), Bar(5, 97.0, 99.0, 96.0, 98.0, 1.0)]
  }

  /** With a one-bar swing window a break passes the previous bar. */
  lemma OneBarBreak(bars: seq<Bar>, i: nat)
    requires 1 <= i < |bars|
    ensures BreaksOut(Long, bars, 1, i) <==> bars[i].close > bars[i - 1].high
    ensures BreaksOut(Short, bars, 1, i) <==> bars[i].close < bars[i - 1].low
  {
    assert Highs(bars)[i - 1..i] == [bars[i - 1].high];
    assert Lows(bars)[i - 1..i] == [bars[i - 1].low];
  }

  lemma NoFirstBreak(bars: seq<Bar>)
    requires bars != []
    ensures !BreaksOut(Short, bars, 1, 0)
  {
  }

  lemma BrokenTapeBlock(low: real)
    requires 90.0 < low <= 110.0
    ensures var bars := BrokenTape(low);
            var b := Prepared(Long, bars, 1);
            && ValidTape(bars)
            && SameRows(b.marks, b.tops) && SameRows(b.marks, b.bottoms)
            && Latest(b.marks, 3, 4) && b.tops[3] == Some(96.0) && b.bottoms[3] == Some(90.0)
  {
    var bars := BrokenTape(low);
    BlocksAtBreaks(Long, bars, 1);
    OneBarBreak(bars, 3);
    OneBarBreak(bars, 4);
    hide BreaksOut;
    assert BlockBar(Long, bars, 1, 3) == 2;
  }

  /** The signal does occur after the warm-up, with the candidate's own ATR: the break
      bar stays clear of the block. */
  lemma SignalOccurs()
    ensures var bars := BrokenTape(105.0);
            && ValidTape(bars)
            && Signal(bars, Prepared(Long, bars, 1), Prepared(Short, bars, 1), Columns.Atr(bars, 1), 4,
                      Config(1, 0.25, 2.0, 96))
               == Some(Intent(Long, 83.5, Some(124.0)))
  {
    var bars := BrokenTape(105.0);
    var b := Prepared(Long, bars, 1);
    BrokenTapeBlock(105.0);
    AtrOfOneBar(bars, 4);
    hide AtrAt, FormedAt, FeatureAt, Latest, RollingMax, SideSignal, IdAt;
    LatestIsId(b.marks, 3, 4);
    RowId(Long, bars, b, 4);
    FeatureNamesOneBar(Long, bars, b.marks, b.tops, b.bottoms, 4);
    assert ClearBetween(Long, bars, Zone(96.0, 90.0), 3, 4);
    ReturnEntry(bars[4], RowOf(Long, bars, b, 4));
  }

  lemma ReturnEntry(b: Bar, f: Feature)
    requires b == Bar(4, 100.0, 101.0, 94.0, 97.0, 1.0)
    requires f.id.Some? && f.top == Some(96.0) && f.bottom == Some(90.0) && f.age == Some(1)
    requires PriorClear(Long, f.prior, Zone(96.0, 90.0))
    ensures SideSignal(Long, f, b, 26.0, Config(1, 0.25, 2.0, 96)) == Some(Intent(Long, 83.5, Some(124.0)))
  {
  }

  /** A first later return that goes unsignalled: the same tape, but the break bar dips
      into the block. */
  lemma ReturnMissed()
    ensures var bars := BrokenTape(95.0);
            var b, z, atr := Prepared(Long, bars, 1), Zone(96.0, 90.0), Columns.Atr(bars, 1);
            && ValidTape(bars) && Latest(b.marks, 3, 4) && b.tops[3] == Some(96.0) && b.bottoms[3] == Some(90.0)
            && ClearBetween(Long, bars, z, 4, 4) && Retraces(Long, bars[4], z)
            && atr[4].Some? && atr[4].value > 0.0
            && EntryAt(Long, bars[4], z, atr[4].value, 0.25, 2.0).Some?
            && Signal(bars, b, Prepared(Short, bars, 1), atr, 4, Config(1, 0.25, 2.0, 96)).None?
  {
    var bars := BrokenTape(95.0);
    var b, c := Prepared(Long, bars, 1), Config(1, 0.25, 2.0, 96);
    BrokenTapeBlock(95.0);
    AtrOfOneBar(bars, 4);
    hide AtrAt, FormedAt, FeatureAt, Latest, RollingMax, RowOf, SideSignal;
    EntryExists(Long, bars[4], Zone(96.0, 90.0), TrueRange(bars, 4), 0.25, 2.0);
    FirstLaterReturn(Long, bars, b, 3, 4, TrueRange(bars, 4), c);
    NoShortBlock(bars);
  }

  lemma NoShortBlock(bars: seq<Bar>)
    requires bars == BrokenTape(95.0)
    ensures var b := Prepared(Short, bars, 1);
            forall atr, c :: SideSignal(Short, RowOf(Short, bars, b, 4), bars[4], atr, c).None?
  {
    var b := Prepared(Short, bars, 1);
    hide BreaksOut, FormedAt, FfillAt;
    forall i: nat | i <= 4 ensures !BreaksOut(Short, bars, 1, i) {
      if i > 0 {
        OneBarBreak(bars, i);
      } else {
        NoFirstBreak(bars);
      }
    }
    IdIsLatest(b.marks, 4);
    RowId(Short, bars, b, 4);
  }
}
