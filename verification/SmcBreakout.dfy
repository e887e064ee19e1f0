/** The structure-breakout candidate: a swing confirmed wing bars after it forms
    becomes a level, and the entry is the first close through it. A long breaks a
    swing high, a short a swing low. */
module SmcBreakout {
  import opened Columns
  import opened Common

  datatype Config = Config(wing: nat, rr: real, minDistAtr: real)

  // ---------- swings ----------

  /** The swing's price on a bar: the high for a swing high, the low for a low. */
  function Pivot(side: Side, b: Bar): real {
    if side == Long then b.high else b.low
  }

  /** Bar i confirms the bar wing back as the extreme of the window around it. */
  predicate ConfirmsAt(side: Side, bars: seq<Bar>, wing: nat, i: nat)
    requires i < |bars|
  {
    i >= wing
    && var extreme := if side == Long then RollingMax(Highs(bars), 2 * wing + 1, i)
                      else RollingMin(Lows(bars), 2 * wing + 1, i);
    extreme == Some(Pivot(side, bars[i - wing]))
  }

  function Confirmed(side: Side, bars: seq<Bar>, wing: nat): (s: seq<bool>)
    ensures |s| == |bars| && forall i: nat :: i < |s| ==> s[i] == ConfirmsAt(side, bars, wing, i)
  {
    seq(|bars|, (i: nat) requires i < |bars| => ConfirmsAt(side, bars, wing, i))
  }

  function Levels(side: Side, bars: seq<Bar>, wing: nat): (s: seq<Option<real>>)
    ensures |s| == |bars|
    ensures forall i: nat :: i < |s| ==>
      s[i] == if ConfirmsAt(side, bars, wing, i) then Some(Pivot(side, bars[i - wing])) else None
  {
    seq(|bars|, (i: nat) requires i < |bars| =>
      if ConfirmsAt(side, bars, wing, i) then Some(Pivot(side, bars[i - wing])) else None)
  }

  function Centers(side: Side, bars: seq<Bar>, wing: nat): (s: seq<Option<nat>>)
    ensures |s| == |bars|
    ensures forall i: nat :: i < |s| ==> s[i] == if ConfirmsAt(side, bars, wing, i) then Some(i - wing) else None
  {
    seq(|bars|, (i: nat) requires i < |bars| => if ConfirmsAt(side, bars, wing, i) then Some(i - wing) else None)
  }

  /** One row of the swing columns of a side. */
  datatype Swing = Swing(id: Option<nat>, level: Option<real>, center: Option<nat>, priorClose: Option<real>)

  function SwingAt(side: Side, bars: seq<Bar>, wing: nat, i: nat): Swing
    requires i < |bars|
  {
    var marks := Confirmed(side, bars, wing);
    Swing(IdAt(marks, i), FfillAt(Levels(side, bars, wing), i), FfillAt(Centers(side, bars, wing), i),
          if side == Long then PriorMax(Closes(bars), marks, i) else PriorMin(Closes(bars), marks, i))
  }

  // ---------- the signal ----------

  predicate Beyond(side: Side, price: real, level: real) {
    if side == Long then price > level else price < level
  }

  /** A third of the range from the swing's center to this bar. */
  function StructureDist(bars: seq<Bar>, i: nat, center: nat): real
    requires i < |bars|
  {
    var highs, lows := Highs(bars), Lows(bars);
    if center >= i then (highs[i] - lows[i]) / 3.0
    else (Max(MaxOf(highs[center..i]), highs[i]) - Min(MinOf(lows[center..i]), lows[i])) / 3.0
  }

  function SideSignal(side: Side, s: Swing, bars: seq<Bar>, i: nat, atr: real, c: Config): Option<Intent>
    requires i < |bars| && c.rr != 0.0
  {
    if s.level.None? || s.center.None? then None
    else
      var level := s.level.value;
      if Beyond(side, bars[i].close, level) && (s.priorClose.Some? ==> !Beyond(side, s.priorClose.value, level)) then
        var dist := StructureDist(bars, i, s.center.value);
        if dist < Times(c.minDistAtr, atr) then None
        else
          var stop := if side == Long then level - dist / c.rr else level + dist / c.rr;
          var target := if side == Long then level + dist else level - dist;
          if Beyond(side, bars[i].close, stop) then Some(Intent(side, stop, Some(target))) else None
      else None
  }

  function Signal(bars: seq<Bar>, atr: seq<Option<real>>, c: Config, i: nat): Option<Intent>
    requires i < |bars| == |atr| && c.rr != 0.0
  {
    if atr[i].None? || atr[i].value <= 0.0 then None
    else
      var long := SideSignal(Long, SwingAt(Long, bars, c.wing, i), bars, i, atr[i].value, c);
      if long.Some? then long
      else SideSignal(Short, SwingAt(Short, bars, c.wing, i), bars, i, atr[i].value, c)
  }

  // ---------- the first break ----------

  /** Bar i is the first to close through the swing confirmed at bar k since the
      start of the swing's own window, 2 * wing bars before the confirmation. */
  ghost predicate FirstBreak(side: Side, bars: seq<Bar>, wing: nat, k: nat, i: nat)
    requires i < |bars|
  {
    && Latest(Confirmed(side, bars, wing), k, i)
    && 2 * wing <= k
    && Beyond(side, bars[i].close, Pivot(side, bars[k - wing]))
    && forall j :: k - 2 * wing <= j < i ==> !Beyond(side, bars[j].close, Pivot(side, bars[k - wing]))
  }

  /** The confirming window holds no close through the level. */
  lemma WindowHolds(side: Side, bars: seq<Bar>, wing: nat, k: nat)
    requires k < |bars| && ValidTape(bars) && ConfirmsAt(side, bars, wing, k)
    ensures 2 * wing <= k
    ensures forall j :: k - 2 * wing <= j <= k ==> !Beyond(side, bars[j].close, Pivot(side, bars[k - wing]))
  {
    var from := k - 2 * wing;
    match side {
      case Long =>
        var s := Highs(bars)[from..k + 1];
        forall j | from <= j <= k ensures bars[j].close <= bars[k - wing].high {
          assert s[j - from] == bars[j].high && ValidBar(bars[j]);
        }
      case Short =>
        var s := Lows(bars)[from..k + 1];
        forall j | from <= j <= k ensures bars[j].close >= bars[k - wing].low {
          assert s[j - from] == bars[j].low && ValidBar(bars[j]);
        }
    }
  }

  /** The columns name one swing: its confirmation bar, its price, its center, and
      the extreme close since the confirmation. */
  lemma SwingNamesOneBar(side: Side, bars: seq<Bar>, wing: nat, i: nat)
    requires i < |bars|
    ensures var s := SwingAt(side, bars, wing, i);
            && (s.id.None? ==> s.level.None? && s.center.None?)
            && (s.id.Some? ==>
                  && Latest(Confirmed(side, bars, wing), s.id.value, i) && ConfirmsAt(side, bars, wing, s.id.value)
                  && s.level == Some(Pivot(side, bars[s.id.value - wing])) && s.center == Some(s.id.value - wing)
                  && (s.priorClose.None? <==> s.id.value == i)
                  && (s.priorClose.Some? ==>
                        forall level :: !Beyond(side, s.priorClose.value, level) <==>
                          forall j :: s.id.value <= j < i ==> !Beyond(side, bars[j].close, level)))
  {
    hide ConfirmsAt, FfillAt, Group, Pivot, Beyond, PriorMin, PriorMax;
    var marks := Confirmed(side, bars, wing);
    IdIsLatest(marks, i);
    match IdAt(marks, i) {
      case None =>
        FfillNothing(Levels(side, bars, wing), i);
        FfillNothing(Centers(side, bars, wing), i);
        NoPrior(side, bars, wing, i);
      case Some(k) =>
        FfillLatest(marks, Levels(side, bars, wing), k, i);
        FfillLatest(marks, Centers(side, bars, wing), k, i);
        PriorNames(side, bars, wing, k, i);
    }
  }

  lemma NoPrior(side: Side, bars: seq<Bar>, wing: nat, i: nat)
    requires i < |bars| && IdAt(Confirmed(side, bars, wing), i).None?
    ensures SwingAt(side, bars, wing, i).priorClose.None?
  {
    hide FfillAt, Group, ConfirmsAt;
  }

  lemma PriorNames(side: Side, bars: seq<Bar>, wing: nat, k: nat, i: nat)
    requires i < |bars| && Latest(Confirmed(side, bars, wing), k, i)
    ensures var prior := SwingAt(side, bars, wing, i).priorClose;
            && (prior.None? <==> k == i)
            && (prior.Some? ==>
                  forall level :: !Beyond(side, prior.value, level) <==>
                    forall j :: k <= j < i ==> !Beyond(side, bars[j].close, level))
  {
    hide ConfirmsAt, FfillAt, Group, Pivot, Beyond, Latest, PriorMin, PriorMax;
    PriorIsStretch(Closes(bars), Confirmed(side, bars, wing), k, i);
    LatestOrder(Confirmed(side, bars, wing), k, i);
    if k < i {
      var prior := SwingAt(side, bars, wing, i).priorClose;
      forall level
        ensures !Beyond(side, prior.value, level) <==> forall j :: k <= j < i ==> !Beyond(side, bars[j].close, level)
      {
        ExtremeClose(side, bars, k, i, level);
      }
    }
  }

  lemma ExtremeClose(side: Side, bars: seq<Bar>, k: nat, i: nat, level: real)
    requires k < i < |bars|
    ensures var s := Closes(bars)[k..i];
            !Beyond(side, if side == Long then MaxOf(s) else MinOf(s), level) <==>
              forall j :: k <= j < i ==> !Beyond(side, bars[j].close, level)
  {
    var s := Closes(bars)[k..i];
    assert forall j :: k <= j < i ==> s[j - k] == bars[j].close;
    assert forall j :: 0 <= j < |s| ==> s[j] == bars[k + j].close;
  }

  /** The two tests of the signal - this close is through the level, no close since
      the confirmation was - pick out exactly the first break. */
  lemma TestsAreFirstBreak(side: Side, bars: seq<Bar>, wing: nat, i: nat)
    requires i < |bars| && ValidTape(bars)
    ensures var s := SwingAt(side, bars, wing, i);
            (s.id.Some? && s.level.Some? && Beyond(side, bars[i].close, s.level.value)
             && (s.priorClose.Some? ==> !Beyond(side, s.priorClose.value, s.level.value)))
            <==> exists k: nat :: FirstBreak(side, bars, wing, k, i)
  {
    hide SwingAt, Beyond, ValidTape, Pivot, IdAt, ConfirmsAt, Latest;
    var s := SwingAt(side, bars, wing, i);
    SwingNamesOneBar(side, bars, wing, i);
    SwingId(side, bars, wing, i);
    if s.id.Some? {
      LatestOrder(Confirmed(side, bars, wing), s.id.value, i);
      WindowHolds(side, bars, wing, s.id.value);
      var level := s.level.value;
      if Beyond(side, bars[i].close, level) && (s.priorClose.Some? ==> !Beyond(side, s.priorClose.value, level)) {
        assert FirstBreak(side, bars, wing, s.id.value, i);
      }
    }
    forall k: nat | FirstBreak(side, bars, wing, k, i)
      ensures s.id == Some(k) && Beyond(side, bars[i].close, s.level.value)
      ensures s.priorClose.Some? ==> !Beyond(side, s.priorClose.value, s.level.value)
    {
      LatestIsId(Confirmed(side, bars, wing), k, i);
    }
  }

  lemma SwingId(side: Side, bars: seq<Bar>, wing: nat, i: nat)
    requires i < |bars|
    ensures SwingAt(side, bars, wing, i).id == IdAt(Confirmed(side, bars, wing), i)
  {
  }

  lemma LatestOrder(marks: seq<bool>, k: nat, i: nat)
    requires Latest(marks, k, i)
    ensures k <= i
  {
  }

  /** An entry is the first close through its swing, strictly after the
      confirmation. */
  lemma SignalIsFirstBreak(side: Side, bars: seq<Bar>, c: Config, i: nat, atr: real)
    requires i < |bars| && ValidTape(bars) && c.rr != 0.0
    requires SideSignal(side, SwingAt(side, bars, c.wing, i), bars, i, atr, c).Some?
    ensures var id := SwingAt(side, bars, c.wing, i).id;
            id.Some? && FirstBreak(side, bars, c.wing, id.value, i) && id.value < i
  {
    hide SwingAt, Beyond, ValidTape, Pivot, StructureDist, IdAt, ConfirmsAt;
    SwingNamesOneBar(side, bars, c.wing, i);
    SwingId(side, bars, c.wing, i);
    TestsAreFirstBreak(side, bars, c.wing, i);
    var k: nat :| FirstBreak(side, bars, c.wing, k, i);
    LatestIsId(Confirmed(side, bars, c.wing), k, i);
    if k == i {
      WindowHolds(side, bars, c.wing, k);
    }
  }

  /** Each swing gives at most one entry. */
  lemma OneEntryPerSwing(side: Side, bars: seq<Bar>, c: Config, i: nat, j: nat, atrI: real, atrJ: real)
    requires i < j < |bars| && ValidTape(bars) && c.rr != 0.0
    requires SideSignal(side, SwingAt(side, bars, c.wing, i), bars, i, atrI, c).Some?
    requires SideSignal(side, SwingAt(side, bars, c.wing, j), bars, j, atrJ, c).Some?
    ensures SwingAt(side, bars, c.wing, i).id != SwingAt(side, bars, c.wing, j).id
  {
    hide SwingAt, Beyond, ValidTape, Pivot, SideSignal, Latest;
    SignalIsFirstBreak(side, bars, c, i, atrI);
    SignalIsFirstBreak(side, bars, c, j, atrJ);
  }

  // ---------- geometry ----------

  lemma DistCoversSwing(side: Side, bars: seq<Bar>, i: nat, center: nat)
    requires center < i < |bars| && ValidTape(bars)
    requires Beyond(side, bars[i].close, Pivot(side, bars[center]))
    ensures 3.0 * StructureDist(bars, i, center) >= Abs(bars[i].close - Pivot(side, bars[center])) > 0.0
  {
    assert ValidBar(bars[i]) && ValidBar(bars[center]);
    var highs, lows := Highs(bars)[center..i], Lows(bars)[center..i];
    assert highs[0] == bars[center].high && lows[0] == bars[center].low;
  }

  lemma PositiveQuotient(a: real, b: real)
    requires a > 0.0 && b > 0.0
    ensures a / b > 0.0
  {
  }

  /** The level separates the stop from the close; the target is a third of the
      structure's range beyond the level. */
  lemma StopBehindLevel(side: Side, bars: seq<Bar>, c: Config, i: nat, atr: real)
    requires i < |bars| && ValidTape(bars) && c.rr > 0.0
    requires SideSignal(side, SwingAt(side, bars, c.wing, i), bars, i, atr, c).Some?
    ensures var s := SwingAt(side, bars, c.wing, i);
            var x := SideSignal(side, s, bars, i, atr, c).value;
            && s.level.Some? && x.side == side
            && Beyond(side, s.level.value, x.stop) && Beyond(side, bars[i].close, s.level.value)
            && x.target.Some? && Beyond(side, x.target.value, s.level.value)
  {
    hide SwingAt, ValidTape, Pivot, StructureDist;
    SignalIsFirstBreak(side, bars, c, i, atr);
    SwingNamesOneBar(side, bars, c.wing, i);
    var s := SwingAt(side, bars, c.wing, i);
    DistCoversSwing(side, bars, i, s.center.value);
    PositiveQuotient(StructureDist(bars, i, s.center.value), c.rr);
  }

  /** Nothing keeps the target ahead of the entry: it is ahead exactly when the close
      has run less than a third of the structure's range past the level. */
  lemma TargetAheadExactly(side: Side, bars: seq<Bar>, c: Config, i: nat, atr: real)
    requires i < |bars| && ValidTape(bars) && c.rr > 0.0
    requires SideSignal(side, SwingAt(side, bars, c.wing, i), bars, i, atr, c).Some?
    ensures var s := SwingAt(side, bars, c.wing, i);
            var x := SideSignal(side, s, bars, i, atr, c).value;
            && s.level.Some? && s.center.Some?
            && x.target.Some? && (Beyond(side, x.target.value, bars[i].close)
                <==> Abs(bars[i].close - s.level.value) < StructureDist(bars, i, s.center.value))
  {
    hide SwingAt, ValidTape, Pivot, StructureDist;
    StopBehindLevel(side, bars, c, i, atr);
  }

  /** A swing high at bar 4, confirmed by bar 5 and broken by bar 6. */
  const RUNAWAY: seq<Bar> := [
    Bar(0, 95.0, 98.0, 90.0, 96.0, 1.0), Bar(1, 95.0, 98.0, 90.0, 96.0, 1.0), Bar(2, 95.0, 98.0, 90.0, 96.0, 1.0),
    Bar(3, 95.0, 98.0, 90.0, 96.0, 1.0), Bar(4, 96.0, 100.0, 94.0, 97.0, 1.0), Bar(5, 97.0, 99.0, 95.0, 98.0, 1.0),
    Bar(6, 99.0, 131.0, 98.0, 130.0, 1.0), Bar(7, 130.0, 132.0, 129.0, 131.0, 1.0)]

  /** It does happen, after the warm-up and with the candidate's own ATR: an entry
      whose target is already behind its close. */
  lemma TargetCanBeBehind()
    ensures ValidTape(RUNAWAY)
    ensures var x := Signal(RUNAWAY, Columns.Atr(RUNAWAY, 1), Config(1, 1.0, 0.25), 6);
            x.Some? && x.value.side == Long && x.value.target.Some? && x.value.target.value < RUNAWAY[6].close
  {
    RunawayFacts();
    AtrOfOneBar(RUNAWAY, 6);
    SwingWitness(RUNAWAY);
    hide SwingAt, SideSignal, AtrAt, TrueRange, RunsAway;
    RunawayEntry(SwingAt(Long, RUNAWAY, 1, 6));
  }

  lemma RunawayFacts()
    ensures ValidTape(RUNAWAY) && RunsAway(RUNAWAY) && RUNAWAY[5].close == 98.0 && RUNAWAY[6].close == 130.0
    ensures TrueRange(RUNAWAY, 6) == 33.0
  {
  }

  lemma RunawayEntry(s: Swing)
    requires s.level == Some(100.0) && s.center == Some(4) && s.priorClose.Some? && s.priorClose.value <= 100.0
    ensures var x := SideSignal(Long, s, RUNAWAY, 6, 33.0, Config(1, 1.0, 0.25));
            x.Some? && x.value.side == Long && x.value.target.Some? && x.value.target.value < 130.0
  {
    RunawayFacts();
    DistWitness(RUNAWAY);
    hide StructureDist, RunsAway;
  }

  ghost predicate RunsAway(bars: seq<Bar>) {
    && |bars| == 8 && Highs(bars) == [98.0, 98.0, 98.0, 98.0, 100.0, 99.0, 131.0, 132.0]
    && Lows(bars) == [90.0, 90.0, 90.0, 90.0, 94.0, 95.0, 98.0, 129.0]
  }

  lemma SwingWitness(bars: seq<Bar>)
    requires RunsAway(bars) && bars[5].close == 98.0
    ensures var s := SwingAt(Long, bars, 1, 6);
            s.level == Some(100.0) && s.center == Some(4) && s.priorClose.Some? && s.priorClose.value <= 100.0
  {
    hide SwingAt, ConfirmsAt, IdAt;
    ConfirmWitness(bars);
    assert Latest(Confirmed(Long, bars, 1), 5, 6);
    LatestIsId(Confirmed(Long, bars, 1), 5, 6);
    SwingId(Long, bars, 1, 6);
    SwingNamesOneBar(Long, bars, 1, 6);
    assert forall j :: 5 <= j < 6 ==> !Beyond(Long, bars[j].close, 100.0);
    assert Highs(bars)[4] == bars[4].high;
    assert !Beyond(Long, SwingAt(Long, bars, 1, 6).priorClose.value, 100.0);
  }

  lemma ConfirmWitness(bars: seq<Bar>)
    requires RunsAway(bars)
    ensures ConfirmsAt(Long, bars, 1, 5) && !ConfirmsAt(Long, bars, 1, 6)
  {
    assert Highs(bars)[3..6] == [98.0, 100.0, 99.0];
    assert Highs(bars)[4..7] == [100.0, 99.0, 131.0];
    assert Highs(bars)[4..7][2] == 131.0;
    assert Highs(bars)[3..6][1] == 100.0;
  }

  lemma DistWitness(bars: seq<Bar>)
    requires RunsAway(bars)
    ensures 12.0 < StructureDist(bars, 6, 4) < 13.0
  {
    assert Highs(bars)[4..6] == [100.0, 99.0];
    assert Lows(bars)[4..6] == [94.0, 95.0];
    assert Lows(bars)[4..6][0] == 94.0;
  }
}
