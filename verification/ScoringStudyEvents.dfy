/** What an event of the scoring study records, read off the bars: its stamps, its
    anchors, each of its features, and what the features are worth. */
module ScoringStudyEvents {
  import opened Common
  import opened Indicators
  import opened HourlyContext
  import opened ScoringStudy
  import opened ScoringStudyDetectors
  import Laws = ScoringStudyLaws

  // ---------- where an event comes from ----------

  /** The event is the one its own bar emitted, from the runs before and after it. */
  ghost predicate Emitted(bars: seq<Slot>, first: int, e: Event) {
    && 0 <= e.index < |bars| && bars[e.index].eligible && DecisionAt(bars, first, e.index).Some?
    && var s, d, before := See(bars, first, e.index), DecisionAt(bars, first, e.index).value, Run(bars, first, e.index);
    e in Emit(e.family, s, d, e.index, before, Refresh(s, e.index, before))
  }

  lemma {:induction false} EmittedSomewhere(k: nat, s: Seen, d: Decision, i: int, before: State, after: State, e: Event)
    requires s.Seen? && |d.prior| == 20 && k <= |FAMILIES|
    requires AnchorsBefore(after.lo, i + 1) && AnchorsBefore(after.hi, i + 1)
    requires e in EmitFrom(k, s, d, i, before, after)
    ensures e.index == i && e in Emit(e.family, s, d, i, before, after)
    decreases |FAMILIES| - k
  {
    hide Emit, AnchorsBefore, EmitFrom;
    EmitsInTurn(k, s, d, i, before, after);
    if e in Emit(FAMILIES[k], s, d, i, before, after) {
      EmitFamily(FAMILIES[k], s, d, i, before, after, e);
    } else {
      EmittedSomewhere(k + 1, s, d, i, before, after, e);
    }
  }

  lemma EmitsInTurn(k: nat, s: Seen, d: Decision, i: int, before: State, after: State)
    requires s.Seen? && |d.prior| == 20 && k <= |FAMILIES|
    requires AnchorsBefore(after.lo, i + 1) && AnchorsBefore(after.hi, i + 1)
    ensures EmitFrom(k, s, d, i, before, after)
         == if k == |FAMILIES| then []
            else Emit(FAMILIES[k], s, d, i, before, after) + EmitFrom(k + 1, s, d, i, before, after)
  {
    hide Emit, AnchorsBefore;
  }

  lemma EmitFamily(family: Family, s: Seen, d: Decision, i: int, before: State, after: State, e: Event)
    requires s.Seen? && |d.prior| == 20
    requires AnchorsBefore(after.lo, i + 1) && AnchorsBefore(after.hi, i + 1)
    requires e in Emit(family, s, d, i, before, after)
    ensures e.family == family && e.index == i
  {
    hide Fires, EventFeatures, Score, AnchorsBefore;
  }

  lemma {:induction false} EveryEventEmitted(bars: seq<Slot>, first: int, n: nat, e: Event)
    requires n <= |bars| && e in Run(bars, first, n).events
    ensures Emitted(bars, first, e)
  {
    hide *;
    if n == 0 {
      Laws.RunStart(bars, first);
      assert false;
    } else {
      Laws.RunStep(bars, first, n);
      if e in Run(bars, first, n - 1).events {
        EveryEventEmitted(bars, first, n - 1, e);
      } else {
        BarEmits(bars, first, n - 1, e);
      }
    }
  }

  lemma BarEmits(bars: seq<Slot>, first: int, i: nat, e: Event)
    requires i < |bars|
    requires var st := Run(bars, first, i); e !in st.events && e in Step(See(bars, first, i), i, st).events
    ensures Emitted(bars, first, e)
  {
    hide Step, Run, EmitFrom, Emit, NewHits, Keys, Refresh, DecisionAt;
    var s, st := See(bars, first, i), Run(bars, first, i);
    Laws.StepFields(s, i, st);
    var d := s.decision.value;
    assert e in EmitFrom(0, s, d, i, st, Refresh(s, i, st));
    EmittedSomewhere(0, s, d, i, st, Refresh(s, i, st), e);
  }

  // ---------- gaps on the bars ----------

  /** Bars c-2, c-1 and c leave a gap above the first of them, or below it. */
  ghost predicate Gapped(bars: seq<Slot>, c: nat, up: bool)
    requires c < |bars|
  {
    && c >= 2 && bars[c - 2].eligible && bars[c - 1].eligible && bars[c].eligible
    && if up then bars[c].low > bars[c - 2].high else bars[c].high < bars[c - 2].low
  }

  /** The latest gap before bar n, if no bar since is bad, none of the at most twelve
      closes since has crossed it, and it is that young. */
  ghost predicate OpenGap(bars: seq<Slot>, n: nat, c: nat, up: bool)
    requires n <= |bars|
  {
    && c < n <= c + 13 && Gapped(bars, c, up)
    && (forall k :: c < k < n ==> bars[k].eligible && !Gapped(bars, k, up)
                                  && if up then bars[k].close >= bars[c - 2].high else bars[k].close <= bars[c - 2].low)
  }

  function GapOf(bars: seq<Slot>, c: nat, up: bool): Gap
    requires 2 <= c < |bars|
  {
    if up then Gap(bars[c - 2].high, bars[c].low, c) else Gap(bars[c].high, bars[c - 2].low, c)
  }

  ghost predicate GapExactly(bars: seq<Slot>, g: Option<Gap>, n: nat, up: bool)
    requires n <= |bars|
  {
    match g
    case None => forall c: nat :: !OpenGap(bars, n, c, up)
    case Some(gap) => 2 <= gap.created < n && OpenGap(bars, n, gap.created, up) && gap == GapOf(bars, gap.created, up)
  }

  lemma OpenGapGrows(bars: seq<Slot>, i: nat, c: nat, up: bool)
    requires i < |bars| && bars[i].eligible
    ensures OpenGap(bars, i + 1, c, up)
            <==> if c == i then Gapped(bars, i, up)
                 else && OpenGap(bars, i, c, up) && i - c <= 12 && !Gapped(bars, i, up)
                      && if up then bars[i].close >= bars[c - 2].high else bars[i].close <= bars[c - 2].low
  {
    hide Gapped;
    if OpenGap(bars, i + 1, c, up) && c < i {
      assert OpenGap(bars, i, c, up);
    }
  }

  lemma OnlyLatestOpen(bars: seq<Slot>, n: nat, a: nat, b: nat, up: bool)
    requires n <= |bars| && OpenGap(bars, n, a, up) && OpenGap(bars, n, b, up)
    ensures a == b
  {
    hide Gapped;
  }

  lemma GapWasOpen(bars: seq<Slot>, g: Option<Gap>, i: nat, c: nat, up: bool)
    requires i < |bars| && bars[i].eligible && GapExactly(bars, g, i, up)
    requires !Gapped(bars, i, up) && OpenGap(bars, i + 1, c, up)
    ensures g.Some? && g.value.created == c && (if up then AgeUp(g, bars[i], i) else AgeDown(g, bars[i], i)) == g
  {
    OpenGapGrows(bars, i, c, up);
    if g.Some? {
      OnlyLatestOpen(bars, i, c, g.value.created, up);
    }
    hide Gapped;
  }

  lemma GapStep(bars: seq<Slot>, g: Option<Gap>, i: nat, up: bool)
    requires i < |bars| && bars[i].eligible && GapExactly(bars, g, i, up)
    ensures var aged := if up then AgeUp(g, bars[i], i) else AgeDown(g, bars[i], i);
            GapExactly(bars, Form(aged, if up then GapAbove(bars, i) else GapBelow(bars, i), i), i + 1, up)
  {
    var aged := if up then AgeUp(g, bars[i], i) else AgeDown(g, bars[i], i);
    var edges := if up then GapAbove(bars, i) else GapBelow(bars, i);
    assert edges.Some? <==> Gapped(bars, i, up);
    OpenGapGrows(bars, i, i, up);
    if edges.None? {
      var n := i + 1;
      forall c: nat | OpenGap(bars, n, c, up) ensures g.Some? && g.value.created == c && aged == g {
        GapWasOpen(bars, g, i, c, up);
      }
      if aged.Some? {
        OpenGapGrows(bars, i, g.value.created, up);
      }
    }
  }

  ghost predicate GapsExactly(bars: seq<Slot>, st: State, n: nat)
    requires n <= |bars|
  {
    GapExactly(bars, st.up, n, true) && GapExactly(bars, st.down, n, false)
  }

  lemma NoGaps(bars: seq<Slot>, n: nat)
    requires n <= |bars| && (n == 0 || !bars[n - 1].eligible)
    ensures GapExactly(bars, None, n, true) && GapExactly(bars, None, n, false)
  {
  }

  lemma StepGaps(bars: seq<Slot>, first: int, i: nat, st: State)
    requires i < |bars| && GapsExactly(bars, st, i) && AnchorsBefore(st.lo, i) && AnchorsBefore(st.hi, i)
    ensures GapsExactly(bars, Step(See(bars, first, i), i, st), i + 1)
  {
    hide Step, GapExactly, LowPivot, HighPivot, GapAbove, GapBelow, DecisionAt, Form, AgeUp, AgeDown, Confirm;
    Laws.StepFields(See(bars, first, i), i, st);
    if bars[i].eligible {
      GapStep(bars, st.up, i, true);
      GapStep(bars, st.down, i, false);
    } else {
      NoGaps(bars, i + 1);
    }
  }

  lemma InitialGaps(bars: seq<Slot>)
    ensures GapsExactly(bars, INITIAL, 0)
  {
    NoGaps(bars, 0);
  }

  /** The gap slots hold exactly the latest gaps that are still open. */
  lemma {:induction false} GapsAreOpen(bars: seq<Slot>, first: int, n: nat)
    requires n <= |bars|
    ensures GapsExactly(bars, Run(bars, first, n), n)
  {
    hide *;
    if n == 0 {
      Laws.RunStart(bars, first);
      InitialGaps(bars);
    } else {
      Laws.RunStep(bars, first, n);
      GapsAreOpen(bars, first, n - 1);
      StepGaps(bars, first, n - 1, Run(bars, first, n - 1));
    }
  }

  // ---------- features on the bars ----------

  predicate Beyond(side: Side, price: real, level: real) {
    if side == Long then price > level else price < level
  }

  /** The bar comes within a quarter of the average range of the level and closes beyond it. */
  ghost predicate Tests(r: Slot, atr: real, side: Side, level: real) {
    r.low - 0.25 * atr <= level <= r.high + 0.25 * atr && Beyond(side, r.close, level)
  }

  /** Breakouts and reclaims test the edge of the range they leave, rejections the one
      they come back from. */
  ghost predicate TestsRange(bars: seq<Slot>, i: nat, atr: real, side: Side, family: Family)
    requires 20 <= i < |bars|
  {
    var upper := (side == Long) == (family != WickReversal20);
    exists m :: i - 20 <= m < i
      && (forall k :: i - 20 <= k < i ==> if upper then bars[k].high <= bars[m].high else bars[k].low >= bars[m].low)
      && Tests(bars[i], atr, side, if upper then bars[m].high else bars[m].low)
  }

  /** Between the last swing low and a higher last swing high, taken in the order of the
      side, the close has given back 38.2 to 61.8 percent. */
  ghost predicate Retraced(lo: Anchor, hi: Anchor, close: real, side: Side) {
    var width := hi.price - lo.price;
    && (if side == Long then lo.index < hi.index else hi.index < lo.index)
    && var back := if side == Long then hi.price - close else close - lo.price;
    0.382 * width <= back <= 0.618 * width
  }

  /** The line through two swings rises with the side, and the bar tests its extension. */
  ghost predicate OnLine(a: Anchor, z: Anchor, r: Slot, atr: real, side: Side, i: int)
    requires a.index < z.index
  {
    Beyond(side, z.price, a.price)
    && Tests(r, atr, side, z.price + (z.price - a.price) / (z.index - a.index) as real * (i - z.index) as real)
  }

  /** Price and strength disagree at the swing this very bar confirms: for a rejection
      the price went against the side, else the strength did. */
  ghost predicate Diverges(a: Anchor, z: Anchor, side: Side, family: Family, i: int)
    requires a.rsi.Some? && z.rsi.Some?
  {
    && z.confirmed == i
    && if family == WickReversal20 then Beyond(side, a.price, z.price) && Beyond(side, z.rsi.value, a.rsi.value)
       else Beyond(side, z.price, a.price) && Beyond(side, a.rsi.value, z.rsi.value)
  }

  /** The bar comes back into the gap and closes beyond it. */
  ghost predicate Refills(r: Slot, g: Gap, side: Side, i: int) {
    && i > g.created && r.low <= g.high && r.high >= g.low
    && Beyond(side, r.close, if side == Long then g.high else g.low)
  }

  ghost predicate Engulfing(p: Slot, r: Slot, side: Side) {
    && Beyond(side, p.open, p.close) && Beyond(side, r.close, r.open)
    && if side == Long then r.open <= p.close && r.close >= p.open else r.open >= p.close && r.close <= p.open
  }

  ghost predicate Loud(volume: real, median: Option<real>) {
    median.Some? && if median.value == 0.0 then volume > 0.0 else volume / median.value >= 1.5
  }

  ghost predicate In(x: Option<real>, low: real, high: real) {
    x.Some? && low <= x.value <= high
  }

  lemma TouchTests(d: Decision, r: Slot, side: Side, level: real)
    ensures Touch(d, r, side, Some(level)) <==> Tests(r, d.atr, side, level)
  {
  }

  lemma RangeTested(bars: seq<Slot>, d: Decision, i: nat, side: Side, family: Family)
    requires 20 <= i < |bars| && d.prior == bars[i - 20..i]
    ensures Touch(d, bars[i], side, Some(TouchedEdge(d, side, family))) <==> TestsRange(bars, i, d.atr, side, family)
  {
    TouchTests(d, bars[i], side, TouchedEdge(d, side, family));
    EdgeOnBars(bars, d, i, side, family);
    hide Tests, TouchedEdge;
  }

  lemma EdgeOnBars(bars: seq<Slot>, d: Decision, i: nat, side: Side, family: Family)
    requires 20 <= i < |bars| && d.prior == bars[i - 20..i]
    ensures var upper := (side == Long) == (family != WickReversal20);
            && (exists m ::
                  i - 20 <= m < i && TouchedEdge(d, side, family) == if upper then bars[m].high else bars[m].low)
            && (forall k :: i - 20 <= k < i ==> if upper then bars[k].high <= TouchedEdge(d, side, family)
                                                else bars[k].low >= TouchedEdge(d, side, family))
  {
    var hs, ls := SlotHighs(d.prior), SlotLows(d.prior);
    var h :| 0 <= h < 20 && hs[h] == RangeHigh(d);
    var l :| 0 <= l < 20 && ls[l] == RangeLow(d);
    assert bars[i - 20 + h].high == RangeHigh(d) && bars[i - 20 + l].low == RangeLow(d);
    assert forall k :: i - 20 <= k < i ==> hs[k - (i - 20)] == bars[k].high && ls[k - (i - 20)] == bars[k].low;
    hide MaxOf, MinOf;
  }

  lemma RetraceShown(lo: seq<Anchor>, hi: seq<Anchor>, r: Slot, side: Side)
    requires lo != [] && hi != [] && hi[|hi| - 1].price > lo[|lo| - 1].price
    ensures Fibonacci(lo, hi, r, side) == Some(Retraced(lo[|lo| - 1], hi[|hi| - 1], r.close, side))
  {
    var a, z := lo[|lo| - 1], hi[|hi| - 1];
    var width := z.price - a.price;
    var back := if side == Long then z.price - r.close else r.close - a.price;
    Share(back, width);
    assert Fibonacci(lo, hi, r, side)
        == Some((if side == Long then z.index > a.index else a.index > z.index) && 0.382 <= back / width <= 0.618);
  }

  lemma Share(x: real, width: real)
    requires width > 0.0
    ensures 0.382 <= x / width <= 0.618 <==> 0.382 * width <= x <= 0.618 * width
  {
    RatioOrder(x, width, 0.382);
    RatioOrder(x, width, 0.618);
  }

  lemma RatioOrder(x: real, width: real, r: real)
    requires width > 0.0
    ensures (x / width >= r <==> x >= r * width) && (x / width <= r <==> x <= r * width)
  {
    var q := x / width;
    assert q * width == x;
    Ordered(q, r, width);
    Ordered(r, q, width);
  }

  lemma Ordered(x: real, y: real, k: real)
    requires k > 0.0
    ensures x * k <= y * k <==> x <= y
  {
  }

  lemma LineShown(same: seq<Anchor>, d: Decision, r: Slot, side: Side, i: int)
    requires AnchorsBefore(same, i + 1) && |same| == 2
    ensures Trendline(same, d, r, side, i) == Some(OnLine(same[0], same[1], r, d.atr, side, i))
  {
    var a, z := same[0], same[1];
    var n := z.index - a.index;
    var slope := Slope(a.price, z.price, n);
    TouchTests(d, r, side, Project(z.price, slope, i - z.index));
    Rises(z.price - a.price, n as real);
    hide Tests, Touch;
  }

  lemma Rises(x: real, n: real)
    requires n > 0.0
    ensures (x / n > 0.0 <==> x > 0.0) && (x / n < 0.0 <==> x < 0.0)
  {
    assert x / n * n == x;
  }

  // ---------- an event's record ----------

  ghost function StructureRecord(bars: seq<Slot>, i: nat, side: Side, lo: seq<Anchor>, hi: seq<Anchor>)
    : seq<Option<bool>>
    requires i < |bars|
  {
    [if |lo| < 2 || |hi| < 2 then None
     else Some(if side == Long then Rising(bars, i + 1) else Falling(bars, i + 1))]
  }

  ghost function LocationRecord(bars: seq<Slot>, i: nat, side: Side, family: Family, lo: seq<Anchor>, hi: seq<Anchor>,
                                gap: Option<Gap>, atr: real, ema20: Option<real>): seq<Option<bool>>
    requires 20 <= i < |bars| && AnchorsBefore(lo, i + 1) && AnchorsBefore(hi, i + 1)
  {
    var r, same := bars[i], if side == Long then lo else hi;
    [Some(TestsRange(bars, i, atr, side, family)),
     Some(ema20.Some? && Tests(r, atr, side, ema20.value)),
     if lo == [] || hi == [] || hi[|hi| - 1].price <= lo[|lo| - 1].price then None
     else Some(Retraced(lo[|lo| - 1], hi[|hi| - 1], r.close, side)),
     if gap.None? then None else Some(Refills(r, gap.value, side, i)),
     if |same| < 2 then None else Some(OnLine(same[0], same[1], r, atr, side, i))]
  }

  ghost function MomentumRecord(same: seq<Anchor>, row: Row, side: Side, family: Family, i: int): seq<Option<bool>> {
    [Some(row.hist.Some? && Beyond(side, row.hist.value, 0.0)),
     Some(if side == Long then In(row.rsi, 50.0, 70.0) else In(row.rsi, 30.0, 50.0)),
     if row.stoch.None? then None
     else Some(if side == Long then In(row.stoch, 50.0, 80.0) else In(row.stoch, 20.0, 50.0)),
     if |same| < 2 || same[0].rsi.None? || same[1].rsi.None? then None
     else Some(Diverges(same[0], same[1], side, family, i))]
  }

  ghost function CandleRecord(p: Slot, r: Slot, haBody: real, side: Side): seq<Option<bool>> {
    [Some(Beyond(side, r.close, r.open) && r.high > r.low
          && 0.6 * (r.high - r.low) <= if side == Long then r.close - r.low else r.high - r.close),
     Some(Engulfing(p, r, side)), Some(Beyond(side, haBody, 0.0))]
  }

  /** The five groups of features, in terms of the bars, the swings known at the bar and
      the gap open at it. */
  ghost predicate Records(bars: seq<Slot>, i: nat, side: Side, family: Family, lo: seq<Anchor>, hi: seq<Anchor>,
                          gap: Option<Gap>, atr: real, row: Row, f: Features)
    requires 20 <= i < |bars| && AnchorsBefore(lo, i + 1) && AnchorsBefore(hi, i + 1)
  {
    f == [StructureRecord(bars, i, side, lo, hi),
          LocationRecord(bars, i, side, family, lo, hi, gap, atr, row.ema20),
          MomentumRecord(if side == Long then lo else hi, row, side, family, i),
          CandleRecord(bars[i - 1], bars[i], row.haBody, side),
          [Some(Loud(bars[i].quoteVolume, row.priorMedian))]]
  }

  lemma LocationShown(st: State, d: Decision, bars: seq<Slot>, i: nat, side: Side, family: Family)
    requires 20 <= i < |bars| && d.prior == bars[i - 20..i]
    requires AnchorsBefore(st.lo, i + 1) && AnchorsBefore(st.hi, i + 1)
    ensures LocationGroup(st, d, bars[i], side, family, i)
         == LocationRecord(bars, i, side, family, st.lo, st.hi, if side == Long then st.up else st.down, d.atr,
                           d.row.ema20)
  {
    hide TestsRange, Tests, Retraced, OnLine, Touch, TouchedEdge, Trendline, Fibonacci;
    var r, lo, hi := bars[i], st.lo, st.hi;
    var same := if side == Long then lo else hi;
    RangeTested(bars, d, i, side, family);
    EmaTested(d, r, side);
    if lo != [] && hi != [] && hi[|hi| - 1].price > lo[|lo| - 1].price {
      RetraceShown(lo, hi, r, side);
    }
    NothingShown(lo, hi, same, d, r, side, i);
    if |same| == 2 {
      LineShown(same, d, r, side, i);
    }
  }

  lemma EmaTested(d: Decision, r: Slot, side: Side)
    ensures Touch(d, r, side, d.row.ema20) <==> d.row.ema20.Some? && Tests(r, d.atr, side, d.row.ema20.value)
  {
  }

  lemma NothingShown(lo: seq<Anchor>, hi: seq<Anchor>, same: seq<Anchor>, d: Decision, r: Slot, side: Side, i: int)
    requires AnchorsBefore(same, i + 1)
    ensures lo == [] || hi == [] || hi[|hi| - 1].price <= lo[|lo| - 1].price ==> Fibonacci(lo, hi, r, side).None?
    ensures |same| < 2 ==> Trendline(same, d, r, side, i).None?
  {
  }

  lemma MomentumShown(same: seq<Anchor>, row: Row, side: Side, family: Family, i: int)
    requires |same| <= 2
    ensures MomentumGroup(same, row, side, family, i) == MomentumRecord(same, row, side, family, i)
  {
  }

  lemma CandleShown(p: Slot, r: Slot, haBody: real, side: Side)
    ensures CandleGroup(p, r, haBody, side) == CandleRecord(p, r, haBody, side)
  {
    hide OuterClose;
    OuterOnBar(r, side);
  }

  lemma StructureShown(bars: seq<Slot>, i: nat, side: Side, st: State)
    requires i < |bars| && AllSwings(bars, st, i + 1)
    ensures StructureGroup(st.lo, st.hi, side) == StructureRecord(bars, i, side, st.lo, st.hi)
  {
    TrendExactly(bars, st, i + 1);
    hide AllSwings, Rising, Falling, Structure;
  }

  lemma FeaturesShown(bars: seq<Slot>, first: int, i: nat, side: Side, family: Family, st: State)
    requires i < |bars| && DecisionAt(bars, first, i).Some? && AllSwings(bars, st, i + 1)
    requires AnchorsBefore(st.lo, i + 1) && AnchorsBefore(st.hi, i + 1)
    ensures var d := DecisionAt(bars, first, i).value;
            && i >= 20
            && Records(bars, i, side, family, st.lo, st.hi, if side == Long then st.up else st.down, d.atr, d.row,
                       EventFeatures(st, d, bars[i], side, family, i))
  {
    hide DecisionAt, Deciding, AllSwings, StructureGroup, LocationGroup, MomentumGroup, CandleGroup, StructureRecord,
      LocationRecord, MomentumRecord, CandleRecord;
    DecidesExactly(bars, first, i);
    var d := DecisionAt(bars, first, i).value;
    DecidesLate(bars, i);
    StructureShown(bars, i, side, st);
    LocationShown(st, d, bars, i, side, family);
    MomentumShown(if side == Long then st.lo else st.hi, d.row, side, family, i);
    CandleShown(d.p, bars[i], d.row.haBody, side);
  }

  lemma DecidesLate(bars: seq<Slot>, i: nat)
    requires i < |bars| && Deciding(bars, i)
    ensures i >= 49 && bars[i].eligible
  {
  }

  /** What an emitted event is stamped with, given the bar and the state after it. */
  ghost predicate Stamped(s: Seen, d: Decision, i: int, after: State, e: Event)
    requires s.Seen? && |d.prior| == 20 && AnchorsBefore(after.lo, i + 1) && AnchorsBefore(after.hi, i + 1)
  {
    && e.index == i && e.slot == s.slot && e.hash == s.r.hash && e.context == d.context
    && e.session == (s.slot + 1) / 12 % 24 / 6 && e.lo == after.lo && e.hi == after.hi
    && e.features == EventFeatures(after, d, s.r, e.side, e.family, i)
    && |e.features| == 5 && e.scores == Score(e.features, d.context.regime)
  }

  lemma EmitStamps(family: Family, s: Seen, d: Decision, i: int, before: State, after: State, e: Event)
    requires s.Seen? && |d.prior| == 20
    requires AnchorsBefore(after.lo, i + 1) && AnchorsBefore(after.hi, i + 1)
    requires e in Emit(family, s, d, i, before, after)
    ensures e.family == family && Stamped(s, d, i, after, e)
  {
    hide Fires, EventFeatures, Score, AnchorsBefore;
  }

  /** The anchors carry the strength of their own bars. */
  ghost predicate Strengths(bars: seq<Slot>, anchors: seq<Anchor>) {
    forall k :: 0 <= k < |anchors| ==>
      && 0 <= anchors[k].index < |bars| && bars[anchors[k].index].eligible
      && anchors[k].rsi == IndicatorRow(bars, anchors[k].index).rsi
  }

  lemma ConfirmStrengths(bars: seq<Slot>, anchors: seq<Anchor>, low: bool, i: nat)
    requires i < |bars| && AnchorsBefore(anchors, i) && Strengths(bars, anchors)
    ensures Strengths(bars, Confirm(anchors, if low then LowPivot(bars, i) else HighPivot(bars, i), i))
  {
    hide IndicatorRow, AnchorsBefore;
  }

  lemma StepStrengths(bars: seq<Slot>, first: int, i: nat, st: State)
    requires i < |bars| && AnchorsBefore(st.lo, i) && AnchorsBefore(st.hi, i)
    requires Strengths(bars, st.lo) && Strengths(bars, st.hi)
    ensures var t := Step(See(bars, first, i), i, st); Strengths(bars, t.lo) && Strengths(bars, t.hi)
  {
    hide Step, Strengths, LowPivot, HighPivot, GapAbove, GapBelow, DecisionAt, Form, AgeUp, AgeDown, Confirm;
    Laws.StepFields(See(bars, first, i), i, st);
    NoStrengths(bars);
    if bars[i].eligible {
      ConfirmStrengths(bars, st.lo, true, i);
      ConfirmStrengths(bars, st.hi, false, i);
    }
  }

  lemma NoStrengths(bars: seq<Slot>)
    ensures Strengths(bars, [])
  {
  }

  lemma {:induction false} RunStrengths(bars: seq<Slot>, first: int, n: nat)
    requires n <= |bars|
    ensures Strengths(bars, Run(bars, first, n).lo) && Strengths(bars, Run(bars, first, n).hi)
  {
    hide Step, See, Strengths;
    NoStrengths(bars);
    if n > 0 {
      RunStrengths(bars, first, n - 1);
      StepStrengths(bars, first, n - 1, Run(bars, first, n - 1));
    }
  }

  /** The event's stamps, anchors, features and scores are those of its bar. */
  ghost predicate Faithful(bars: seq<Slot>, first: int, e: Event) {
    && 49 <= e.index < |bars| && bars[e.index].eligible && |e.features| == 5
    && e.slot == first + e.index && e.hash == bars[e.index].hash
    && e.context == ContextAt(bars, first, e.index)
    && e.session == (e.slot + 1) / 12 % 24 / 6
    && e.scores == Score(e.features, e.context.regime)
    && AnchorsFaithful(bars, e) && FeaturesFaithful(bars, e)
  }

  /** The last two swings of each kind known at the bar. */
  ghost predicate AnchorsFaithful(bars: seq<Slot>, e: Event)
    requires 0 <= e.index < |bars|
  {
    && Exhaustive(bars, e.lo, true, e.index + 1) && Exhaustive(bars, e.hi, false, e.index + 1)
    && Strengths(bars, e.lo) && Strengths(bars, e.hi)
  }

  ghost predicate FeaturesFaithful(bars: seq<Slot>, e: Event)
    requires 49 <= e.index < |bars| && bars[e.index].eligible
  {
    var row := IndicatorRow(bars, e.index);
    && row.atr20.Some? && AnchorsBefore(e.lo, e.index + 1) && AnchorsBefore(e.hi, e.index + 1)
    && exists gap :: GapExactly(bars, gap, e.index + 1, e.side == Long)
         && Records(bars, e.index, e.side, e.family, e.lo, e.hi, gap, row.atr20.value, row, e.features)
  }

  lemma DecisionParts(bars: seq<Slot>, first: int, i: nat)
    requires i < |bars| && DecisionAt(bars, first, i).Some?
    ensures var d := DecisionAt(bars, first, i).value;
            && d.context == ContextAt(bars, first, i) && bars[i].eligible && i >= 49
            && d.row == IndicatorRow(bars, i) && d.row.atr20 == Some(d.atr)
  {
    hide ContextAt, IndicatorRow;
  }

  lemma RefreshIsNext(bars: seq<Slot>, first: int, i: nat)
    requires i < |bars| && bars[i].eligible
    ensures var after, next := Refresh(See(bars, first, i), i, Run(bars, first, i)), Run(bars, first, i + 1);
            after.lo == next.lo && after.hi == next.hi && after.up == next.up && after.down == next.down
  {
    hide Run, Step, Refresh;
    Laws.RunStep(bars, first, i + 1);
    Laws.StepFields(See(bars, first, i), i, Run(bars, first, i));
  }

  lemma AfterKnown(bars: seq<Slot>, first: int, i: nat)
    requires i < |bars| && bars[i].eligible
    ensures var after := Refresh(See(bars, first, i), i, Run(bars, first, i));
            && AllSwings(bars, after, i + 1) && Strengths(bars, after.lo) && Strengths(bars, after.hi)
            && GapExactly(bars, after.up, i + 1, true) && GapExactly(bars, after.down, i + 1, false)
  {
    hide Run, Refresh, Exhaustive, GapExactly, Strengths;
    RefreshIsNext(bars, first, i);
    AnchorsAreSwings(bars, first, i + 1);
    GapsAreOpen(bars, first, i + 1);
    RunStrengths(bars, first, i + 1);
  }

  lemma FeaturesFaithfulAt(bars: seq<Slot>, first: int, i: nat, after: State, e: Event)
    requires i < |bars| && e.index == i && DecisionAt(bars, first, i).Some? && AllSwings(bars, after, i + 1)
    requires AnchorsBefore(after.lo, i + 1) && AnchorsBefore(after.hi, i + 1)
    requires GapExactly(bars, after.up, i + 1, true) && GapExactly(bars, after.down, i + 1, false)
    requires e.lo == after.lo && e.hi == after.hi
    requires e.features == EventFeatures(after, DecisionAt(bars, first, i).value, bars[i], e.side, e.family, i)
    ensures i >= 49 && bars[i].eligible && FeaturesFaithful(bars, e)
  {
    hide *;
    DecisionParts(bars, first, i);
    FeaturesShown(bars, first, i, e.side, e.family, after);
    var d := DecisionAt(bars, first, i).value;
    RecordedFaithfully(bars, i, if e.side == Long then after.up else after.down, d.atr, d.row, e);
  }

  lemma RecordedFaithfully(bars: seq<Slot>, i: nat, gap: Option<Gap>, atr: real, row: Row, e: Event)
    requires 49 <= i < |bars| && e.index == i && bars[i].eligible
    requires AnchorsBefore(e.lo, i + 1) && AnchorsBefore(e.hi, i + 1)
    requires row == IndicatorRow(bars, i) && row.atr20 == Some(atr) && GapExactly(bars, gap, i + 1, e.side == Long)
    requires Records(bars, i, e.side, e.family, e.lo, e.hi, gap, atr, row, e.features)
    ensures FeaturesFaithful(bars, e)
  {
    hide Records, GapExactly, IndicatorRow, AnchorsBefore;
  }

  lemma EmittedParts(bars: seq<Slot>, first: int, e: Event)
    requires Emitted(bars, first, e)
    ensures var i := e.index;
            && 0 <= i < |bars| && bars[i].eligible && DecisionAt(bars, first, i).Some?
            && e.slot == first + i && e.hash == bars[i].hash
            && Stamped(See(bars, first, i), DecisionAt(bars, first, i).value, i,
                       Refresh(See(bars, first, i), i, Run(bars, first, i)), e)
  {
    hide DecisionAt, Run, Refresh, Emit, EventFeatures, Score;
    var i := e.index;
    EmitStamps(e.family, See(bars, first, i), DecisionAt(bars, first, i).value, i, Run(bars, first, i),
               Refresh(See(bars, first, i), i, Run(bars, first, i)), e);
  }

  /** Over every run, each event's record is the one its bar and the bars before it show. */
  lemma EventsFaithful(bars: seq<Slot>, first: int, n: nat, e: Event)
    requires n <= |bars| && e in Run(bars, first, n).events
    ensures Faithful(bars, first, e)
  {
    hide *;
    EveryEventEmitted(bars, first, n, e);
    EmittedParts(bars, first, e);
    var i := e.index;
    var after := Refresh(See(bars, first, i), i, Run(bars, first, i));
    AfterKnown(bars, first, i);
    DecisionParts(bars, first, i);
    StampParts(See(bars, first, i), DecisionAt(bars, first, i).value, i, after, e);
    SeenParts(bars, first, i);
    FeaturesFaithfulAt(bars, first, i, after, e);
    SwingParts(bars, after, i + 1);
    AssembledFaithfully(bars, first, e);
  }

  lemma StampParts(s: Seen, d: Decision, i: int, after: State, e: Event)
    requires s.Seen? && |d.prior| == 20 && AnchorsBefore(after.lo, i + 1) && AnchorsBefore(after.hi, i + 1)
    requires Stamped(s, d, i, after, e)
    ensures e.lo == after.lo && e.hi == after.hi && e.context == d.context && |e.features| == 5
    ensures e.session == (s.slot + 1) / 12 % 24 / 6 && e.scores == Score(e.features, d.context.regime)
    ensures e.features == EventFeatures(after, d, s.r, e.side, e.family, i)
  {
    hide EventFeatures, Score;
  }

  lemma SeenParts(bars: seq<Slot>, first: int, i: nat)
    requires i < |bars| && bars[i].eligible
    ensures var s := See(bars, first, i);
            s.Seen? && s.slot == first + i && s.r == bars[i] && s.decision == DecisionAt(bars, first, i)
  {
  }

  lemma AssembledFaithfully(bars: seq<Slot>, first: int, e: Event)
    requires 49 <= e.index < |bars| && bars[e.index].eligible && |e.features| == 5
    requires e.slot == first + e.index && e.hash == bars[e.index].hash
    requires e.context == ContextAt(bars, first, e.index) && e.session == (e.slot + 1) / 12 % 24 / 6
    requires e.scores == Score(e.features, e.context.regime) && FeaturesFaithful(bars, e)
    requires Exhaustive(bars, e.lo, true, e.index + 1) && Exhaustive(bars, e.hi, false, e.index + 1)
    requires Strengths(bars, e.lo) && Strengths(bars, e.hi)
    ensures Faithful(bars, first, e)
  {
    hide ContextAt, Score, FeaturesFaithful, Exhaustive, Strengths;
  }

  // ---------- what the features are worth ----------

  lemma {:induction false} CountsOf(members: seq<Option<bool>>)
    ensures Hits(members) == multiset(members)[Some(true)]
    ensures Known(members) == |members| - multiset(members)[None]
  {
    if members != [] {
      CountsOf(members[1..]);
      assert members == [members[0]] + members[1..];
    }
  }

  /** A group scores the share of true ones among its available members. */
  lemma GroupCounts(members: seq<Option<bool>>)
    ensures var known := |members| - multiset(members)[None];
            && (known > 0 ==> GroupScore(members) * known as real == multiset(members)[Some(true)] as real)
            && (known == 0 ==> GroupScore(members) == 0.0)
  {
    hide Hits, Known;
    CountsOf(members);
    Undivided(Hits(members) as real, Known(members) as real);
  }

  lemma Undivided(x: real, n: real)
    ensures n > 0.0 ==> x / n * n == x
  {
  }

  function Points(regime: Regime, k: nat): real
    requires k < 5
  {
    if regime == Range then [10.0, 35.0, 15.0, 25.0, 15.0][k] else [30.0, 20.0, 25.0, 10.0, 15.0][k]
  }

  /** A group that gains a share x of full marks, the others unchanged, adds a fifth of
      it to the balanced score, its regime's points of it to the regime score, and a
      quarter of it to each score but the one without that group. */
  lemma ScoreAdds(f: Features, g: Features, k: nat, x: real, regime: Regime)
    requires |f| == |g| == 5 && k < 5 && GroupScore(g[k]) == GroupScore(f[k]) + x
    requires forall j :: 0 <= j < 5 && j != k ==> GroupScore(g[j]) == GroupScore(f[j])
    ensures var s, t := Score(f, regime), Score(g, regime);
            && t.balanced60 == s.balanced60 + 20.0 * x
            && t.regime60 == s.regime60 + Points(regime, k) * x
            && |s.without| == |t.without| == 5
            && forall j :: 0 <= j < 5 ==> t.without[j] == s.without[j] + if j == k then 0.0 else 25.0 * x
  {
    hide GroupScore;
    assert k == 0 || k == 1 || k == 2 || k == 3 || k == 4;
  }

  /** With nothing scored in any group every score is zero. */
  lemma NothingScoresNothing(f: Features, regime: Regime)
    requires |f| == 5 && forall k :: 0 <= k < 5 ==> GroupScore(f[k]) == 0.0
    ensures Score(f, regime).balanced60 == Score(f, regime).regime60 == 0.0
  {
    hide GroupScore;
    assert GroupScore(f[0]) == GroupScore(f[1]) == GroupScore(f[2]) == GroupScore(f[3]) == GroupScore(f[4]) == 0.0;
  }
}
