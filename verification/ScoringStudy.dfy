/** The frozen scoring study: confirmed swing anchors, fair-value-gap slots and
    one-shot structure breaks, scored bar by bar against an hourly context.
    See gathers what bar i may look at; Step is the state change it causes. */
module ScoringStudy {
  import opened Common
  import opened Indicators
  import opened HourlyContext

  datatype Family = Breakout20 | WickReversal20 | Ema20Reclaim | Bos3 | Choch3

  const FAMILIES: seq<Family> := [Breakout20, WickReversal20, Ema20Reclaim, Bos3, Choch3]

  datatype Anchor = Anchor(index: int, confirmed: int, price: real, hash: string, rsi: Option<real>)

  datatype Gap = Gap(low: real, high: real, created: int)

  datatype Pivot = Pivot(price: real, hash: string, rsi: Option<real>)

  /** What a warm bar adds: the bar before it and that bar's EMA20, the twenty
      bars before it, its own indicators with a positive ATR, and its context. */
  datatype Decision = Decision(
    p: Slot,
    priorEma: Option<real>,
    prior: seq<Slot>,
    row: Row,
    atr: real,
    context: Context)

  datatype Seen =
    | Bad
    | Seen(slot: int, r: Slot, low: Option<Pivot>, high: Option<Pivot>,
           gapUp: Option<(real, real)>, gapDown: Option<(real, real)>, decision: Option<Decision>)

  /** Five groups of features; a feature may be unavailable. */
  type Features = seq<seq<Option<bool>>>

  datatype Scores = Scores(balanced60: real, regime60: real, without: seq<real>)

  datatype Event = Event(
    family: Family,
    side: Side,
    index: int,
    slot: int,
    hash: string,
    context: Context,
    session: int,
    lo: seq<Anchor>,
    hi: seq<Anchor>,
    features: Features,
    scores: Scores)

  datatype BreakHit = BreakHit(side: Side, hash: string, index: int)

  datatype State = State(
    lo: seq<Anchor>,
    hi: seq<Anchor>,
    up: Option<Gap>,
    down: Option<Gap>,
    used: set<(Side, string)>,
    hits: seq<BreakHit>,
    events: seq<Event>,
    invalid: nat,
    warmup: nat)

  const INITIAL := State([], [], None, None, {}, [], [], 0, 0)

  // ---------- what bar i looks at ----------

  predicate Unbroken(bars: seq<Slot>, i: nat, width: nat)
    requires i < |bars|
  {
    width <= i && forall k :: i - width <= k <= i ==> bars[k].eligible
  }

  /** A strict three-by-three pivot, visible at the close of its third right bar. */
  function LowPivot(bars: seq<Slot>, i: nat): Option<Pivot>
    requires i < |bars|
  {
    if Unbroken(bars, i, 6) && forall k :: i - 6 <= k <= i && k != i - 3 ==> bars[i - 3].low < bars[k].low
    then Some(Pivot(bars[i - 3].low, bars[i - 3].hash, IndicatorRow(bars, i - 3).rsi))
    else None
  }

  function HighPivot(bars: seq<Slot>, i: nat): Option<Pivot>
    requires i < |bars|
  {
    if Unbroken(bars, i, 6) && forall k :: i - 6 <= k <= i && k != i - 3 ==> bars[i - 3].high > bars[k].high
    then Some(Pivot(bars[i - 3].high, bars[i - 3].hash, IndicatorRow(bars, i - 3).rsi))
    else None
  }

  function GapAbove(bars: seq<Slot>, i: nat): Option<(real, real)>
    requires i < |bars|
  {
    if Unbroken(bars, i, 2) && bars[i].low > bars[i - 2].high
    then Some((bars[i - 2].high, bars[i].low)) else None
  }

  function GapBelow(bars: seq<Slot>, i: nat): Option<(real, real)>
    requires i < |bars|
  {
    if Unbroken(bars, i, 2) && bars[i].high < bars[i - 2].low
    then Some((bars[i].high, bars[i - 2].low)) else None
  }

  function DecisionAt(bars: seq<Slot>, first: int, i: nat): (d: Option<Decision>)
    requires i < |bars|
    ensures d.Some? ==> Warm(bars, i) && |d.value.prior| == 20 && d.value.atr > 0.0
  {
    if !Warm(bars, i) then None
    else
      var row := IndicatorRow(bars, i);
      if row.atr20.None? || row.atr20.value <= 0.0 then None
      else Some(Decision(bars[i - 1], IndicatorRow(bars, i - 1).ema20, bars[i - 20..i], row, row.atr20.value,
                         ContextAt(bars, first, i)))
  }

  function See(bars: seq<Slot>, first: int, i: nat): (s: Seen)
    requires i < |bars|
    ensures s.Bad? <==> !bars[i].eligible
    ensures s.Seen? && s.decision.Some? ==> |s.decision.value.prior| == 20
  {
    if !bars[i].eligible then Bad
    else Seen(first + i, bars[i], LowPivot(bars, i), HighPivot(bars, i),
              GapAbove(bars, i), GapBelow(bars, i), DecisionAt(bars, first, i))
  }

  // ---------- anchors, gaps and trend ----------

  /** At most two anchors, in index order, each confirmed three bars later and before bar i. */
  ghost predicate AnchorsBefore(anchors: seq<Anchor>, i: int) {
    && |anchors| <= 2
    && (forall k :: 0 <= k < |anchors| ==> anchors[k].confirmed == anchors[k].index + 3 < i)
    && (|anchors| == 2 ==> anchors[0].index < anchors[1].index)
  }

  function Confirm(anchors: seq<Anchor>, pivot: Option<Pivot>, i: int): (r: seq<Anchor>)
    requires AnchorsBefore(anchors, i)
    ensures AnchorsBefore(r, i + 1)
  {
    if pivot.None? then anchors
    else
      var more := anchors + [Anchor(i - 3, i, pivot.value.price, pivot.value.hash, pivot.value.rsi)];
      if |more| > 2 then more[|more| - 2..] else more
  }

  /** The trend of the last two confirmed pairs, if both kinds have one. */
  function Structure(lo: seq<Anchor>, hi: seq<Anchor>): Option<Side> {
    if |lo| < 2 || |hi| < 2 then None
    else if lo[|lo| - 1].price > lo[|lo| - 2].price && hi[|hi| - 1].price > hi[|hi| - 2].price then Some(Long)
    else if lo[|lo| - 1].price < lo[|lo| - 2].price && hi[|hi| - 1].price < hi[|hi| - 2].price then Some(Short)
    else None
  }

  function AgeUp(gap: Option<Gap>, r: Slot, i: int): Option<Gap> {
    if gap.Some? && (i - gap.value.created > 12 || r.close < gap.value.low) then None else gap
  }

  function AgeDown(gap: Option<Gap>, r: Slot, i: int): Option<Gap> {
    if gap.Some? && (i - gap.value.created > 12 || r.close > gap.value.high) then None else gap
  }

  function Form(gap: Option<Gap>, edges: Option<(real, real)>, i: int): Option<Gap> {
    if edges.Some? then Some(Gap(edges.value.0, edges.value.1, i)) else gap
  }

  // ---------- detectors ----------

  predicate Crosses(side: Side, before: real, now: real, level: real) {
    Sign(side) * (before - level) <= 0.0 < Sign(side) * (now - level)
  }

  predicate OuterClose(side: Side, r: Slot) {
    var width := r.high - r.low;
    width > 0.0 && (if side == Long then (r.close - r.low) / width >= 0.6 else (r.high - r.close) / width >= 0.6)
  }

  function RangeHigh(d: Decision): real
    requires |d.prior| == 20
  {
    MaxOf(SlotHighs(d.prior))
  }

  function RangeLow(d: Decision): real
    requires |d.prior| == 20
  {
    MinOf(SlotLows(d.prior))
  }

  /** The hash of the confirmed anchor this bar newly breaks on a side, if any. */
  function BreakOf(st: State, d: Decision, r: Slot, side: Side): Option<string> {
    var anchors := if side == Long then st.hi else st.lo;
    if anchors == [] || Structure(st.lo, st.hi).None? then None
    else
      var a := anchors[|anchors| - 1];
      if Crosses(side, d.p.close, r.close, a.price) && (side, a.hash) !in st.used then Some(a.hash) else None
  }

  predicate Fires(family: Family, st: State, d: Decision, r: Slot, side: Side)
    requires |d.prior| == 20
  {
    match family
    case Breakout20 =>
      Crosses(side, d.p.close, r.close, if side == Long then RangeHigh(d) else RangeLow(d))
    case WickReversal20 =>
      && (if side == Long then r.low < RangeLow(d) < r.close else r.high > RangeHigh(d) > r.close)
      && OuterClose(side, r)
      && Sign(side) * (r.close - r.open) > 0.0
    case Ema20Reclaim =>
      && d.priorEma.Some? && d.row.ema20.Some?
      && Sign(side) * (d.p.close - d.priorEma.value) <= 0.0 < Sign(side) * (r.close - d.row.ema20.value)
    case Bos3 =>
      BreakOf(st, d, r, side).Some? && Structure(st.lo, st.hi) == Some(side)
    case Choch3 =>
      BreakOf(st, d, r, side).Some? && Structure(st.lo, st.hi) != Some(side)
  }

  function Sides(family: Family, st: State, d: Decision, r: Slot): seq<Side>
    requires |d.prior| == 20
  {
    (if Fires(family, st, d, r, Long) then [Long] else [])
    + (if Fires(family, st, d, r, Short) then [Short] else [])
  }

  // ---------- features and scores ----------

  predicate Touch(d: Decision, r: Slot, side: Side, level: Option<real>) {
    && level.Some?
    && r.low - 0.25 * d.atr <= level.value <= r.high + 0.25 * d.atr
    && Sign(side) * (r.close - level.value) > 0.0
  }

  /** Reversals touch the opposite edge of the prior range. */
  function TouchedEdge(d: Decision, side: Side, family: Family): real
    requires |d.prior| == 20
  {
    if (side == Long) == (family != WickReversal20) then RangeHigh(d) else RangeLow(d)
  }

  function Fibonacci(lo: seq<Anchor>, hi: seq<Anchor>, r: Slot, side: Side): Option<bool> {
    if lo == [] || hi == [] || hi[|hi| - 1].price <= lo[|lo| - 1].price then None
    else
      var a, z := lo[|lo| - 1], hi[|hi| - 1];
      var width := z.price - a.price;
      var ordered := if side == Long then z.index > a.index else a.index > z.index;
      var retrace := if side == Long then (z.price - r.close) / width else (r.close - a.price) / width;
      Some(ordered && 0.382 <= retrace <= 0.618)
  }

  /** The line through the last two anchors of one kind, read at bar i. The
      division is defined because anchor indices strictly increase. */
  function Trendline(same: seq<Anchor>, d: Decision, r: Slot, side: Side, i: int): Option<bool>
    requires AnchorsBefore(same, i + 1)
  {
    if |same| < 2 then None
    else
      var a, z := same[0], same[1];
      var slope := Slope(a.price, z.price, z.index - a.index);
      Some(Sign(side) * slope > 0.0 && Touch(d, r, side, Some(Project(z.price, slope, i - z.index))))
  }

  function Slope(from: real, to: real, bars: int): real
    requires bars != 0
  {
    (to - from) / bars as real
  }

  function Project(from: real, slope: real, bars: int): real {
    from + slope * bars as real
  }

  function Divergence(same: seq<Anchor>, side: Side, family: Family, i: int): Option<bool> {
    if |same| < 2 || same[|same| - 2].rsi.None? || same[|same| - 1].rsi.None? then None
    else
      var a, z := same[|same| - 2], same[|same| - 1];
      var price := Sign(side) * (z.price - a.price);
      var rsi := Sign(side) * (z.rsi.value - a.rsi.value);
      Some(z.confirmed == i && (if family == WickReversal20 then price < 0.0 < rsi else price > 0.0 > rsi))
  }

  function GapRetest(gap: Option<Gap>, r: Slot, side: Side, i: int): Option<bool> {
    if gap.None? then None
    else
      var far := if side == Long then gap.value.high else gap.value.low;
      Some(i > gap.value.created && r.low <= gap.value.high && r.high >= gap.value.low
           && Sign(side) * (r.close - far) > 0.0)
  }

  /** volume_ratio >= 1.5; a zero median gives an infinite ratio when there is volume. */
  predicate Burst(volume: real, median: Option<real>) {
    median.Some? && if median.value == 0.0 then volume > 0.0 else volume / median.value >= 1.5
  }

  predicate Engulfs(p: Slot, r: Slot, side: Side) {
    && Sign(side) * (p.close - p.open) < 0.0
    && Sign(side) * (r.close - r.open) > 0.0
    && Min(r.open, r.close) <= Min(p.open, p.close)
    && Max(r.open, r.close) >= Max(p.open, p.close)
  }

  predicate Between(x: Option<real>, low: real, high: real) {
    x.Some? && low <= x.value <= high
  }

  function StructureGroup(lo: seq<Anchor>, hi: seq<Anchor>, side: Side): seq<Option<bool>> {
    [if |lo| < 2 || |hi| < 2 then None else Some(Structure(lo, hi) == Some(side))]
  }

  function LocationGroup(st: State, d: Decision, r: Slot, side: Side, family: Family, i: int): seq<Option<bool>>
    requires |d.prior| == 20
    requires AnchorsBefore(st.lo, i + 1) && AnchorsBefore(st.hi, i + 1)
  {
    [ Some(Touch(d, r, side, Some(TouchedEdge(d, side, family)))),
      Some(Touch(d, r, side, d.row.ema20)),
      Fibonacci(st.lo, st.hi, r, side),
      GapRetest(if side == Long then st.up else st.down, r, side, i),
      Trendline(if side == Long then st.lo else st.hi, d, r, side, i)]
  }

  function MomentumGroup(same: seq<Anchor>, row: Row, side: Side, family: Family, i: int): seq<Option<bool>> {
    [ Some(row.hist.Some? && Sign(side) * row.hist.value > 0.0),
      Some(if side == Long then Between(row.rsi, 50.0, 70.0) else Between(row.rsi, 30.0, 50.0)),
      if row.stoch.None? then None
      else Some(if side == Long then Between(row.stoch, 50.0, 80.0) else Between(row.stoch, 20.0, 50.0)),
      Divergence(same, side, family, i)]
  }

  function CandleGroup(p: Slot, r: Slot, haBody: real, side: Side): seq<Option<bool>> {
    [ Some(Sign(side) * (r.close - r.open) > 0.0 && OuterClose(side, r)),
      Some(Engulfs(p, r, side)),
      Some(Sign(side) * haBody > 0.0)]
  }

  function EventFeatures(st: State, d: Decision, r: Slot, side: Side, family: Family, i: int): (f: Features)
    requires |d.prior| == 20
    requires AnchorsBefore(st.lo, i + 1) && AnchorsBefore(st.hi, i + 1)
    ensures |f| == 5 && |f[0]| == 1 && |f[1]| == 5 && |f[2]| == 4 && |f[3]| == 3 && |f[4]| == 1
  {
    [ StructureGroup(st.lo, st.hi, side),
      LocationGroup(st, d, r, side, family, i),
      MomentumGroup(if side == Long then st.lo else st.hi, d.row, side, family, i),
      CandleGroup(d.p, r, d.row.haBody, side),
      [Some(Burst(r.quoteVolume, d.row.priorMedian))]]
  }

  function Known(members: seq<Option<bool>>): (n: nat)
    ensures n <= |members|
  {
    if members == [] then 0 else Known(members[1..]) + if members[0].Some? then 1 else 0
  }

  function Hits(members: seq<Option<bool>>): (n: nat)
    ensures n <= Known(members)
  {
    if members == [] then 0 else Hits(members[1..]) + if members[0] == Some(true) then 1 else 0
  }

  /** The mean of the available members; an unavailable group scores nothing. */
  function GroupScore(members: seq<Option<bool>>): (g: real)
    ensures 0.0 <= g <= 1.0
  {
    if Known(members) == 0 then 0.0 else Hits(members) as real / Known(members) as real
  }

  function Coverage(members: seq<Option<bool>>): (c: real)
    requires members != []
    ensures 0.0 <= c <= 1.0
  {
    Known(members) as real / |members| as real
  }

  function Score(f: Features, regime: Regime): Scores
    requires |f| == 5
  {
    var g := seq(5, k requires 0 <= k < 5 => GroupScore(f[k]));
    var total := g[0] + g[1] + g[2] + g[3] + g[4];
    Scores(
      20.0 * total,
      if regime == Range
      then 10.0 * g[0] + 35.0 * g[1] + 15.0 * g[2] + 25.0 * g[3] + 15.0 * g[4]
      else 30.0 * g[0] + 20.0 * g[1] + 25.0 * g[2] + 10.0 * g[3] + 15.0 * g[4],
      seq(5, k requires 0 <= k < 5 => 25.0 * (total - g[k])))
  }

  // ---------- one bar ----------

  /** Anchors confirmed and gaps aged and formed at bar i, before any decision. */
  function Refresh(s: Seen, i: int, st: State): (r: State)
    requires s.Seen? && AnchorsBefore(st.lo, i) && AnchorsBefore(st.hi, i)
    ensures AnchorsBefore(r.lo, i + 1) && AnchorsBefore(r.hi, i + 1)
  {
    st.(lo := Confirm(st.lo, s.low, i),
        hi := Confirm(st.hi, s.high, i),
        up := Form(AgeUp(st.up, s.r, i), s.gapUp, i),
        down := Form(AgeDown(st.down, s.r, i), s.gapDown, i))
  }

  /** The event of one family: exactly one side must fire. The detectors see the
      state before the bar, the features the state after it. */
  function Emit(family: Family, s: Seen, d: Decision, i: int, before: State, after: State): (e: seq<Event>)
    requires s.Seen? && |d.prior| == 20
    requires AnchorsBefore(after.lo, i + 1) && AnchorsBefore(after.hi, i + 1)
    ensures |e| <= 1
    ensures |e| == 1 ==> e[0].family == family && e[0].index == i && e[0].hash == s.r.hash
    ensures |e| == 1 ==> Fires(family, before, d, s.r, e[0].side)
  {
    var sides := Sides(family, before, d, s.r);
    if |sides| != 1 then []
    else
      var f := EventFeatures(after, d, s.r, sides[0], family, i);
      [Event(family, sides[0], i, s.slot, s.r.hash, d.context, HourOf(s.slot + 1) % 24 / 6,
             after.lo, after.hi, f, Score(f, d.context.regime))]
  }

  function EmitFrom(k: nat, s: Seen, d: Decision, i: int, before: State, after: State): (e: seq<Event>)
    requires s.Seen? && |d.prior| == 20 && k <= |FAMILIES|
    requires AnchorsBefore(after.lo, i + 1) && AnchorsBefore(after.hi, i + 1)
    ensures forall m :: 0 <= m < |e| ==> e[m].index == i
    decreases |FAMILIES| - k
  {
    if k == |FAMILIES| then []
    else Emit(FAMILIES[k], s, d, i, before, after) + EmitFrom(k + 1, s, d, i, before, after)
  }

  function HitsOn(st: State, d: Decision, r: Slot, side: Side, i: int): seq<BreakHit> {
    var b := BreakOf(st, d, r, side);
    if b.Some? then [BreakHit(side, b.value, i)] else []
  }

  function NewHits(st: State, d: Decision, r: Slot, i: int): seq<BreakHit> {
    HitsOn(st, d, r, Long, i) + HitsOn(st, d, r, Short, i)
  }

  function Keys(hits: seq<BreakHit>): set<(Side, string)> {
    set h | h in hits :: (h.side, h.hash)
  }

  function Decide(s: Seen, d: Decision, i: int, before: State, after: State): (r: State)
    requires s.Seen? && |d.prior| == 20
    requires AnchorsBefore(after.lo, i + 1) && AnchorsBefore(after.hi, i + 1)
    ensures r.lo == after.lo && r.hi == after.hi
  {
    var hits := NewHits(before, d, s.r, i);
    after.(used := after.used + Keys(hits),
           hits := after.hits + hits,
           events := after.events + EmitFrom(0, s, d, i, before, after))
  }

  function Step(s: Seen, i: int, st: State): (r: State)
    requires s.Seen? && s.decision.Some? ==> |s.decision.value.prior| == 20
    requires AnchorsBefore(st.lo, i) && AnchorsBefore(st.hi, i)
    ensures AnchorsBefore(r.lo, i + 1) && AnchorsBefore(r.hi, i + 1)
  {
    if s.Bad? then st.(lo := [], hi := [], up := None, down := None, invalid := st.invalid + 1)
    else
      var after := Refresh(s, i, st);
      if s.decision.None? then after.(warmup := after.warmup + 1)
      else Decide(s, s.decision.value, i, st, after)
  }

  /** The state after the first n slots. */
  function Run(bars: seq<Slot>, first: int, n: nat): (st: State)
    requires n <= |bars|
    ensures AnchorsBefore(st.lo, n) && AnchorsBefore(st.hi, n)
  {
    if n == 0 then INITIAL else Step(See(bars, first, n - 1), n - 1, Run(bars, first, n - 1))
  }

  // ---------- the study over a calendar ----------

  datatype Rejection = CalendarIdentityInvalid | CalendarSlotsMustIncludeGaps | EligibleFormingBar

  datatype Outcome = Rejected(reason: Rejection) | Generated(state: State)

  const STEP_SECONDS := 300

  predicate Increasing(index: seq<int>) {
    forall k :: 0 <= k < |index| - 1 ==> index[k] < index[k + 1]
  }

  predicate EverySlot(index: seq<int>) {
    forall k :: 0 <= k < |index| - 1 ==> index[k + 1] - index[k] == STEP_SECONDS
  }

  predicate OnlyClosed(bars: seq<Slot>) {
    forall k :: 0 <= k < |bars| ==> bars[k].eligible ==> bars[k].isClosed
  }

  function FirstSlot(index: seq<int>): int {
    if index == [] then 0 else index[0] / STEP_SECONDS
  }

  function Study(index: seq<int>, bars: seq<Slot>): Outcome
    requires |index| == |bars|
  {
    if !Increasing(index) then Rejected(CalendarIdentityInvalid)
    else if !EverySlot(index) then Rejected(CalendarSlotsMustIncludeGaps)
    else if !OnlyClosed(bars) then Rejected(EligibleFormingBar)
    else Generated(Run(bars, FirstSlot(index), |bars|))
  }

  method EmitAll(s: Seen, d: Decision, i: int, before: State, after: State) returns (emitted: seq<Event>)
    requires s.Seen? && |d.prior| == 20
    requires AnchorsBefore(after.lo, i + 1) && AnchorsBefore(after.hi, i + 1)
    ensures emitted == EmitFrom(0, s, d, i, before, after)
  {
    hide Emit, See, AnchorsBefore;
    emitted := [];
    for k := 0 to |FAMILIES|
      invariant emitted + EmitFrom(k, s, d, i, before, after) == EmitFrom(0, s, d, i, before, after)
    {
      emitted := emitted + Emit(FAMILIES[k], s, d, i, before, after);
    }
  }

  method Scan(bars: seq<Slot>, first: int) returns (st: State)
    ensures st == Run(bars, first, |bars|)
  {
    hide LowPivot, HighPivot, GapAbove, GapBelow, DecisionAt, Confirm, AgeUp, AgeDown, Form, EmitFrom, HitsOn, Keys;
    var lo: seq<Anchor>, hi: seq<Anchor> := [], [];
    var up: Option<Gap>, down: Option<Gap> := None, None;
    var used: set<(Side, string)> := {};
    var hits: seq<BreakHit>, events: seq<Event> := [], [];
    var invalid, warmup := 0, 0;
    for i := 0 to |bars|
      invariant State(lo, hi, up, down, used, hits, events, invalid, warmup) == Run(bars, first, i)
    {
      if !bars[i].eligible {
        lo, hi, up, down := [], [], None, None;
        invalid := invalid + 1;
        continue;
      }
      var s := See(bars, first, i);
      var before := State(lo, hi, up, down, used, hits, events, invalid, warmup);
      lo := Confirm(lo, s.low, i);
      hi := Confirm(hi, s.high, i);
      up := Form(AgeUp(up, s.r, i), s.gapUp, i);
      down := Form(AgeDown(down, s.r, i), s.gapDown, i);
      if s.decision.None? {
        warmup := warmup + 1;
        continue;
      }
      var d := s.decision.value;
      var after := State(lo, hi, up, down, used, hits, events, invalid, warmup);
      var broken := HitsOn(before, d, s.r, Long, i);
      broken := broken + HitsOn(before, d, s.r, Short, i);
      used := used + Keys(broken);
      hits := hits + broken;
      var emitted := EmitAll(s, d, i, before, after);
      events := events + emitted;
    }
    st := State(lo, hi, up, down, used, hits, events, invalid, warmup);
  }

  method Generate(index: seq<int>, bars: seq<Slot>) returns (r: Outcome)
    requires |index| == |bars|
    ensures r == Study(index, bars)
  {
    hide Run;
    if !Increasing(index) {
      return Rejected(CalendarIdentityInvalid);
    }
    if !EverySlot(index) {
      return Rejected(CalendarSlotsMustIncludeGaps);
    }
    if !OnlyClosed(bars) {
      return Rejected(EligibleFormingBar);
    }
    var st := Scan(bars, FirstSlot(index));
    r := Generated(st);
  }
}
