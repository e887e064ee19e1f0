/** The two slow sleeves of the book replay: failed breakdowns and pullbacks in a
    trend, entered on closed hourly bars, one position at a time, with a wide stop
    that trails only once the trade is well ahead. */
module SlowSleeve {
  import opened Columns
  import opened Common

  const TAKER_BPS := 5.9
  const ROUND_TRIP := 2.0 * TAKER_BPS
  const FLUSH_LOOKBACK := 12
  const FLUSH_VOL_MULT := 2.0
  const STOP_ATR_PAD := 0.5
  const TREND_EMA := 20
  const TREND_SLOPE_BARS := 6
  const TRAIL_ARM_R := 1.5
  const TRAIL_ATR_MULT := 2.0
  const MAX_HOLD_BARS := 48
  const ATR_PERIOD := 14
  const VR_SHORT := 6
  const VR_LONG := 48
  const VR_EXPAND := 1.10
  const VR_STRESS := 2.50
  const DRIFT_BPS_EXPAND := 80.0

  datatype Reason = Stopped | TimedOut

  datatype Exit = Exit(net: real, reason: Reason, held: nat)

  /** What a setup decides on its own bar. */
  datatype Plan = Plan(side: Side, entry: real, stop: real, risk: real)

  datatype Sleeve = FlushReclaim | PullbackTrend

  /** A closed trade; at is the position of its entry bar. */
  datatype Trade = Trade(sleeve: Sleeve, at: nat, ts: int, side: Side, net: real, reason: Reason, held: nat)

  datatype Regime = Range | Expand | Stress

  // ---------- indicators ----------

  function Mean(s: seq<real>): real
    requires |s| > 0
  {
    Sum(s) / |s| as real
  }

  /** The mean true range of the bars strictly before i. */
  function Atr(bars: seq<Bar>, i: nat, period: nat): real
    requires 2 <= i <= |bars| && period >= 1
  {
    Mean(TrueRanges(bars, if 1 < i - period then i - period else 1, i))
  }

  /** The average the source accumulates, as a recurrence. */
  function EmaAt(closes: seq<real>, i: nat): real
    requires i < |closes|
  {
    if i == 0 then closes[0]
    else EmaAt(closes, i - 1) + 2.0 / 21.0 * (closes[i] - EmaAt(closes, i - 1))
  }

  method Ema(values: seq<real>) returns (out: seq<real>)
    requires values != []
    ensures |out| == |values|
    ensures forall k :: 0 <= k < |out| ==> out[k] == EmaAt(values, k)
  {
    out := [values[0]];
    for i := 1 to |values|
      invariant |out| == i
      invariant forall k :: 0 <= k < i ==> out[k] == EmaAt(values, k)
    {
      out := out + [out[i - 1] + 2.0 / (TREND_EMA + 1) as real * (values[i] - out[i - 1])];
    }
  }

  /** The average never leaves the range of the closes seen so far. */
  lemma {:induction false} EmaStaysInRange(closes: seq<real>, i: nat, low: real, high: real)
    requires i < |closes|
    requires forall k :: 0 <= k <= i ==> low <= closes[k] <= high
    ensures low <= EmaAt(closes, i) <= high
  {
    if i > 0 {
      EmaStaysInRange(closes, i - 1, low, high);
    }
  }

  lemma {:induction false} EmaCausal(a: seq<real>, b: seq<real>, i: nat)
    requires i < |a| && i < |b|
    requires forall k :: 0 <= k <= i ==> a[k] == b[k]
    ensures EmaAt(a, i) == EmaAt(b, i)
  {
    if i > 0 {
      EmaCausal(a, b, i - 1);
    }
  }

  function DriftBps(bars: seq<Bar>, i: nat): real
    requires i <= |bars| && ValidTape(bars)
  {
    if i >= 26 then Abs(bars[i - 1].close / bars[i - 25].close - 1.0) * 10000.0 else 0.0
  }

  function RegimeAt(bars: seq<Bar>, i: nat): Regime
    requires i <= |bars| && ValidTape(bars)
  {
    if i < VR_LONG + 2 then Range
    else
      var long := Atr(bars, i, VR_LONG);
      if long <= 0.0 then Range
      else
        var vr := Atr(bars, i, VR_SHORT) / long;
        if vr >= VR_STRESS then Stress
        else if vr >= VR_EXPAND || DriftBps(bars, i) >= DRIFT_BPS_EXPAND then Expand
        else Range
  }

  // ---------- exits ----------

  function Extreme(side: Side, extreme: real, b: Bar): real {
    if side == Long then Max(extreme, b.high) else Min(extreme, b.low)
  }

  function Excursion(side: Side, entry: real, extreme: real): real {
    if side == Long then extreme - entry else entry - extreme
  }

  predicate Hit(side: Side, b: Bar, stop: real) {
    if side == Long then b.low <= stop else b.high >= stop
  }

  function Trail(side: Side, extreme: real, atr: real): real {
    if side == Long then extreme - TRAIL_ATR_MULT * atr else extreme + TRAIL_ATR_MULT * atr
  }

  /** The more favourable of the stop and its trail. */
  function Ratchet(side: Side, stop: real, trail: real): real {
    if side == Long then Max(stop, trail) else Min(stop, trail)
  }

  function GrossBps(side: Side, entry: real, price: real): real
    requires entry > 0.0
  {
    (if side == Long then price / entry - 1.0 else 1.0 - price / entry) * 10000.0
  }

  function NetBps(side: Side, entry: real, price: real): real
    requires entry > 0.0
  {
    GrossBps(side, entry, price) - ROUND_TRIP
  }

  /** The last bar a position entered at i may be held to. */
  function Horizon(bars: seq<Bar>, i: nat): nat
    requires i < |bars|
  {
    if i + MAX_HOLD_BARS < |bars| - 1 then i + MAX_HOLD_BARS else |bars| - 1
  }

  function NextStop(bars: seq<Bar>, j: nat, plan: Plan, extreme: real, stop: real): real
    requires 2 <= j <= |bars|
  {
    if Excursion(plan.side, plan.entry, extreme) >= TRAIL_ARM_R * plan.risk then
      Ratchet(plan.side, stop, Trail(plan.side, extreme, Atr(bars, j, ATR_PERIOD)))
    else stop
  }

  /** How the position entered at i ends, seen from bar j. */
  function ExitFrom(bars: seq<Bar>, i: nat, j: nat, plan: Plan, extreme: real, stop: real): Exit
    requires 1 <= i < |bars| - 1 && i < j <= Horizon(bars, i) + 1 && plan.entry > 0.0
    decreases |bars| - j
  {
    if j > Horizon(bars, i) then
      Exit(NetBps(plan.side, plan.entry, bars[Horizon(bars, i)].close), TimedOut, Horizon(bars, i) - i)
    else
      var best := Extreme(plan.side, extreme, bars[j]);
      if Hit(plan.side, bars[j], stop) then Exit(NetBps(plan.side, plan.entry, stop), Stopped, j - i)
      else ExitFrom(bars, i, j + 1, plan, best, NextStop(bars, j, plan, best, stop))
  }

  function ExitOf(bars: seq<Bar>, i: nat, plan: Plan): Exit
    requires 1 <= i < |bars| - 1 && plan.entry > 0.0
  {
    ExitFrom(bars, i, i + 1, plan, plan.entry, plan.stop)
  }

  method SlowExit(bars: seq<Bar>, i: nat, plan: Plan) returns (exit: Exit)
    requires 1 <= i < |bars| - 1 && plan.entry > 0.0
    ensures exit == ExitOf(bars, i, plan)
  {
    hide GrossBps, Atr, Ratchet, Trail, Excursion, Extreme, Hit;
    var extreme, stop := plan.entry, plan.stop;
    var j := i + 1;
    while j <= Horizon(bars, i)
      invariant i < j <= Horizon(bars, i) + 1
      invariant ExitOf(bars, i, plan) == ExitFrom(bars, i, j, plan, extreme, stop)
    {
      extreme := Extreme(plan.side, extreme, bars[j]);
      if Hit(plan.side, bars[j], stop) {
        return Exit(NetBps(plan.side, plan.entry, stop), Stopped, j - i);
      }
      if Excursion(plan.side, plan.entry, extreme) >= TRAIL_ARM_R * plan.risk {
        stop := Ratchet(plan.side, stop, Trail(plan.side, extreme, Atr(bars, j, ATR_PERIOD)));
      }
      j := j + 1;
    }
    var last := Horizon(bars, i);
    return Exit(NetBps(plan.side, plan.entry, bars[last].close), TimedOut, last - i);
  }

  /** No worse for the holder. */
  ghost predicate AtLeastAsGood(side: Side, price: real, floor: real) {
    if side == Long then price >= floor else price <= floor
  }

  lemma StopOnlyRatchets(bars: seq<Bar>, j: nat, plan: Plan, extreme: real, stop: real)
    requires 2 <= j <= |bars|
    ensures AtLeastAsGood(plan.side, NextStop(bars, j, plan, extreme, stop), stop)
  {
    hide Atr;
  }

  lemma Quotient(price: real, floor: real, entry: real)
    requires entry > 0.0 && price >= floor
    ensures price / entry >= floor / entry
  {
  }

  lemma Share(a: real, b: real, e: real)
    requires e > 0.0
    ensures (a - b) / e == a / e - b / e
  {
  }

  /** Losing no more than the initial risk, plus costs. */
  ghost predicate WithinRisk(plan: Plan, net: real)
    requires plan.entry > 0.0
  {
    net >= -(plan.risk / plan.entry) * 10000.0 - ROUND_TRIP
  }

  ghost predicate SoundPlan(plan: Plan) {
    && plan.entry > 0.0 && plan.risk > 0.0
    && plan.risk == (if plan.side == Long then plan.entry - plan.stop else plan.stop - plan.entry)
  }

  lemma FloorPrice(plan: Plan, price: real)
    requires SoundPlan(plan) && AtLeastAsGood(plan.side, price, plan.stop)
    ensures WithinRisk(plan, NetBps(plan.side, plan.entry, price))
  {
    var e := plan.entry;
    if plan.side == Long {
      Quotient(price, plan.stop, e);
      Share(e, plan.stop, e);
    } else {
      Quotient(plan.stop, price, e);
      Share(plan.stop, e, e);
    }
  }

  /** Both ways out lose at most the initial risk, and the holding time is bounded. */
  lemma {:induction false} ExitFromBounded(bars: seq<Bar>, i: nat, j: nat, plan: Plan, extreme: real, stop: real)
    requires 1 <= i < |bars| - 1 && i < j <= Horizon(bars, i) + 1 && ValidTape(bars)
    requires SoundPlan(plan) && AtLeastAsGood(plan.side, stop, plan.stop)
    requires j > i + 1 ==> !Hit(plan.side, bars[j - 1], plan.stop)
    ensures var x := ExitFrom(bars, i, j, plan, extreme, stop);
            && WithinRisk(plan, x.net) && 1 <= x.held <= MAX_HOLD_BARS && i + x.held < |bars|
            && (x.reason == TimedOut ==> i + x.held == Horizon(bars, i))
    decreases |bars| - j
  {
    hide NetBps, WithinRisk, Atr, NextStop;
    if j > Horizon(bars, i) {
      assert ValidBar(bars[j - 1]);
      FloorPrice(plan, bars[j - 1].close);
    } else if Hit(plan.side, bars[j], stop) {
      FloorPrice(plan, stop);
    } else {
      var best := Extreme(plan.side, extreme, bars[j]);
      StopOnlyRatchets(bars, j, plan, best, stop);
      ExitFromBounded(bars, i, j + 1, plan, best, NextStop(bars, j, plan, best, stop));
    }
  }

  lemma ExitBounded(bars: seq<Bar>, i: nat, plan: Plan)
    requires 1 <= i < |bars| - 1 && ValidTape(bars) && SoundPlan(plan)
    ensures var x := ExitOf(bars, i, plan);
            && WithinRisk(plan, x.net) && 1 <= x.held <= MAX_HOLD_BARS && i + x.held < |bars|
            && (x.reason == TimedOut ==> i + x.held == Horizon(bars, i))
  {
    hide WithinRisk, ExitFrom;
    ExitFromBounded(bars, i, i + 1, plan, plan.entry, plan.stop);
  }

  lemma AtrCausal(a: seq<Bar>, n: nat, i: nat, period: nat)
    requires 2 <= i <= n <= |a| && period >= 1
    ensures Atr(a[..n], i, period) == Atr(a, i, period)
  {
    hide TrueRange;
    var lo := if 1 < i - period then i - period else 1;
    var s, t := TrueRanges(a[..n], lo, i), TrueRanges(a, lo, i);
    forall k | 0 <= k < i - lo ensures s[k] == t[k] {
      SameTrueRange(a, n, lo + k);
    }
    assert s == t;
  }

  lemma SameTrueRange(a: seq<Bar>, n: nat, j: nat)
    requires 1 <= j < n <= |a|
    ensures TrueRange(a[..n], j) == TrueRange(a, j)
  {
  }

  /** A stop, or a full-length hold, is settled by the bars up to the exit: what
      comes later cannot change it. */
  lemma {:induction false} ExitFromCausal(bars: seq<Bar>, i: nat, j: nat, n: nat, plan: Plan, extreme: real, stop: real)
    requires 1 <= i < |bars| - 1 && i < j <= Horizon(bars, i) + 1 && plan.entry > 0.0 && n <= |bars|
    requires var x := ExitFrom(bars, i, j, plan, extreme, stop);
             i + x.held < n && (x.reason == Stopped || x.held == MAX_HOLD_BARS)
    requires i < n - 1 && j <= Horizon(bars[..n], i) + 1
    ensures ExitFrom(bars[..n], i, j, plan, extreme, stop) == ExitFrom(bars, i, j, plan, extreme, stop)
    decreases |bars| - j
  {
    hide NetBps, Atr, Ratchet, Trail, Excursion, Extreme, Hit;
    if j <= Horizon(bars, i) && !Hit(plan.side, bars[j], stop) {
      var best := Extreme(plan.side, extreme, bars[j]);
      AtrCausal(bars, n, j, ATR_PERIOD);
      HeldAtLeast(bars, i, j + 1, plan, best, NextStop(bars, j, plan, best, stop));
      ExitFromCausal(bars, i, j + 1, n, plan, best, NextStop(bars, j, plan, best, stop));
    } else if j <= Horizon(bars, i) {
      assert bars[..n][j] == bars[j];
    }
  }

  lemma {:induction false} HeldAtLeast(bars: seq<Bar>, i: nat, j: nat, plan: Plan, extreme: real, stop: real)
    requires 1 <= i < |bars| - 1 && i < j <= Horizon(bars, i) + 1 && plan.entry > 0.0
    ensures var x := ExitFrom(bars, i, j, plan, extreme, stop);
            (x.reason == Stopped ==> i + x.held >= j) && (x.reason == TimedOut ==> i + x.held == Horizon(bars, i))
    decreases |bars| - j
  {
    hide NetBps, Atr, Ratchet, Trail, Excursion, Extreme, Hit, NextStop;
    if j <= Horizon(bars, i) && !Hit(plan.side, bars[j], stop) {
      var best := Extreme(plan.side, extreme, bars[j]);
      HeldAtLeast(bars, i, j + 1, plan, best, NextStop(bars, j, plan, best, stop));
    }
  }

  lemma ExitCausal(bars: seq<Bar>, i: nat, n: nat, plan: Plan)
    requires 1 <= i < |bars| - 1 && plan.entry > 0.0 && n <= |bars| && i < n - 1
    requires var x := ExitOf(bars, i, plan);
             i + x.held < n && (x.reason == Stopped || x.held == MAX_HOLD_BARS)
    ensures ExitOf(bars[..n], i, plan) == ExitOf(bars, i, plan)
  {
    hide ExitFrom;
    ExitFromCausal(bars, i, i + 1, n, plan, plan.entry, plan.stop);
  }

  // ---------- setups ----------

  /** The plan of a long or short setup, or none. */
  function PlanFor(b: Bar, long: bool, short: bool, atr: real): Option<Plan> {
    if !long && !short then None
    else
      var side := if long then Long else Short;
      var stop := if long then b.low - STOP_ATR_PAD * atr else b.high + STOP_ATR_PAD * atr;
      var risk := Abs(b.close - stop);
      if risk <= 0.0 then None else Some(Plan(side, b.close, stop, risk))
  }

  function VolumeMean(bars: seq<Bar>, i: nat): real
    requires i < |bars|
  {
    if i >= 24 then Mean(Volumes(bars[i - 24..i])) else bars[i].volume
  }

  function PriorLow(bars: seq<Bar>, i: nat): real
    requires FLUSH_LOOKBACK <= i <= |bars|
  {
    MinOf(Lows(bars[i - FLUSH_LOOKBACK..i]))
  }

  function PriorHigh(bars: seq<Bar>, i: nat): real
    requires FLUSH_LOOKBACK <= i <= |bars|
  {
    MaxOf(Highs(bars[i - FLUSH_LOOKBACK..i]))
  }

  /** A new low on volume that closes back above the prior window's low. */
  predicate FlushLong(bars: seq<Bar>, i: nat)
    requires FLUSH_LOOKBACK <= i < |bars|
  {
    && bars[i].low < PriorLow(bars, i) < bars[i].close
    && bars[i].volume >= FLUSH_VOL_MULT * VolumeMean(bars, i)
  }

  /** A new high on volume that closes back below the prior window's high. */
  predicate FlushShort(bars: seq<Bar>, i: nat)
    requires FLUSH_LOOKBACK <= i < |bars|
  {
    && bars[i].high > PriorHigh(bars, i) > bars[i].close
    && bars[i].volume >= FLUSH_VOL_MULT * VolumeMean(bars, i)
  }

  function FlushPlan(bars: seq<Bar>, i: nat, router: bool): Option<Plan>
    requires FLUSH_LOOKBACK <= i < |bars| && ValidTape(bars)
  {
    if router && RegimeAt(bars, i) == Stress then None
    else
      var atr := Atr(bars, i, ATR_PERIOD);
      if atr <= 0.0 || VolumeMean(bars, i) <= 0.0 then None
      else PlanFor(bars[i], FlushLong(bars, i), FlushShort(bars, i), atr)
  }

  /** A touch of the average that closes back on the trend's side, given the
      average now and six bars back. */
  function PullbackAt(bars: seq<Bar>, i: nat, router: bool, now: real, back: real): Option<Plan>
    requires 2 <= i < |bars| && ValidTape(bars)
  {
    if router && RegimeAt(bars, i) != Expand then None
    else
      var b := bars[i];
      var atr := Atr(bars, i, ATR_PERIOD);
      if atr <= 0.0 || i < TREND_SLOPE_BARS + 1 then None
      else PlanFor(b, now > back && b.low <= now < b.close, now < back && b.high >= now > b.close, atr)
  }

  function PullbackPlan(bars: seq<Bar>, i: nat, router: bool): Option<Plan>
    requires TREND_SLOPE_BARS <= i < |bars| && ValidTape(bars)
  {
    PullbackAt(bars, i, router, EmaAt(Closes(bars), i), EmaAt(Closes(bars), i - TREND_SLOPE_BARS))
  }

  function Setup(bars: seq<Bar>, sleeve: Sleeve, i: nat, router: bool): Option<Plan>
    requires FLUSH_LOOKBACK <= i < |bars| && ValidTape(bars)
  {
    if sleeve == FlushReclaim then FlushPlan(bars, i, router) else PullbackPlan(bars, i, router)
  }

  /** A plan enters at the close with its stop beyond the bar's own extreme, and
      its risk is the positive distance between the two. */
  lemma PlanSound(bars: seq<Bar>, sleeve: Sleeve, i: nat, router: bool)
    requires FLUSH_LOOKBACK <= i < |bars| && ValidTape(bars) && Setup(bars, sleeve, i, router).Some?
    ensures var p := Setup(bars, sleeve, i, router).value;
            && SoundPlan(p) && p.entry == bars[i].close
            && (if p.side == Long then p.stop < bars[i].low else p.stop > bars[i].high)
  {
    hide RegimeAt, Atr, VolumeMean, MinOf, MaxOf, EmaAt;
    assert ValidBar(bars[i]);
  }

  lemma RegimeCausal(bars: seq<Bar>, n: nat, i: nat)
    requires i < n <= |bars| && ValidTape(bars)
    ensures ValidTape(bars[..n]) && RegimeAt(bars[..n], i) == RegimeAt(bars, i)
  {
    hide Atr;
    if i >= VR_LONG + 2 {
      AtrCausal(bars, n, i, VR_LONG);
      AtrCausal(bars, n, i, VR_SHORT);
      assert DriftBps(bars[..n], i) == DriftBps(bars, i);
    }
  }

  /** Whether a bar is a setup, and with which plan, is settled at its close. */
  lemma SetupCausal(bars: seq<Bar>, n: nat, sleeve: Sleeve, i: nat, router: bool)
    requires FLUSH_LOOKBACK <= i < n <= |bars| && ValidTape(bars)
    ensures ValidTape(bars[..n]) && Setup(bars[..n], sleeve, i, router) == Setup(bars, sleeve, i, router)
  {
    hide Atr, RegimeAt, MinOf, MaxOf, Mean, EmaAt, PlanFor, Lows, Highs, Volumes;
    var cut := bars[..n];
    RegimeCausal(bars, n, i);
    AtrCausal(bars, n, i, ATR_PERIOD);
    assert cut[i] == bars[i];
    match sleeve {
      case FlushReclaim =>
        assert cut[i - FLUSH_LOOKBACK..i] == bars[i - FLUSH_LOOKBACK..i];
        assert i >= 24 ==> cut[i - 24..i] == bars[i - 24..i];
      case PullbackTrend =>
        EmaCausal(Closes(cut), Closes(bars), i);
        EmaCausal(Closes(cut), Closes(bars), i - TREND_SLOPE_BARS);
    }
  }

  // ---------- the book ----------

  function TradeOf(bars: seq<Bar>, sleeve: Sleeve, i: nat, plan: Plan): Trade
    requires 1 <= i < |bars| - 1 && plan.entry > 0.0
  {
    var x := ExitOf(bars, i, plan);
    Trade(sleeve, i, bars[i].ts, plan.side, x.net, x.reason, x.held)
  }

  /** The trades entered from bar i on, when the position in hand, if any, is held
      through bar busyUntil. */
  function Book(bars: seq<Bar>, sleeve: Sleeve, router: bool, i: nat, busyUntil: int): seq<Trade>
    requires FLUSH_LOOKBACK <= i && ValidTape(bars)
    decreases |bars| - i
  {
    if i >= |bars| - 1 then []
    else if i <= busyUntil then Book(bars, sleeve, router, i + 1, busyUntil)
    else
      var plan := Setup(bars, sleeve, i, router);
      if plan.None? then Book(bars, sleeve, router, i + 1, busyUntil)
      else
        PlanSound(bars, sleeve, i, router);
        var trade := TradeOf(bars, sleeve, i, plan.value);
        [trade] + Book(bars, sleeve, router, i + 1, i + trade.held)
  }

  /** The first bar each sleeve may enter on. */
  function FirstBar(sleeve: Sleeve, start: nat): (i: nat)
    ensures i >= start && i >= FLUSH_LOOKBACK
  {
    var warmUp := (if sleeve == FlushReclaim then FLUSH_LOOKBACK else TREND_EMA) + VR_LONG + 2;
    if start >= warmUp then start else warmUp
  }

  method FlushReclaimBook(bars: seq<Bar>, start: nat, router: bool) returns (trades: seq<Trade>)
    requires ValidTape(bars)
    ensures trades == Book(bars, FlushReclaim, router, FirstBar(FlushReclaim, start), -1)
  {
    hide ExitOf, FlushPlan, ValidTape;
    trades := [];
    var busyUntil := -1;
    var i := FirstBar(FlushReclaim, start);
    while i < |bars| - 1
      invariant i >= FirstBar(FlushReclaim, start)
      invariant Book(bars, FlushReclaim, router, FirstBar(FlushReclaim, start), -1)
             == trades + Book(bars, FlushReclaim, router, i, busyUntil)
      decreases |bars| - i
    {
      if i > busyUntil {
        var plan := FlushPlan(bars, i, router);
        if plan.Some? {
          PlanSound(bars, FlushReclaim, i, router);
          var exit := SlowExit(bars, i, plan.value);
          trades := trades + [Trade(FlushReclaim, i, bars[i].ts, plan.value.side, exit.net, exit.reason, exit.held)];
          busyUntil := i + exit.held;
        }
      }
      i := i + 1;
    }
  }

  method PullbackTrendBook(bars: seq<Bar>, start: nat, router: bool) returns (trades: seq<Trade>)
    requires ValidTape(bars) && bars != []
    ensures trades == Book(bars, PullbackTrend, router, FirstBar(PullbackTrend, start), -1)
  {
    hide ExitOf, PullbackAt, ValidTape, EmaAt, PlanFor, SoundPlan, Setup;
    var ema := Ema(Closes(bars));
    trades := [];
    var busyUntil := -1;
    var i := FirstBar(PullbackTrend, start);
    while i < |bars| - 1
      invariant i >= FirstBar(PullbackTrend, start)
      invariant Book(bars, PullbackTrend, router, FirstBar(PullbackTrend, start), -1)
             == trades + Book(bars, PullbackTrend, router, i, busyUntil)
      decreases |bars| - i
    {
      if i > busyUntil {
        var plan := PullbackAt(bars, i, router, ema[i], ema[i - TREND_SLOPE_BARS]);
        PullbackSetup(bars, i, router, ema);
        if plan.Some? {
          PlanSound(bars, PullbackTrend, i, router);
          EntryPrice(plan.value);
          var exit := SlowExit(bars, i, plan.value);
          trades := trades + [Trade(PullbackTrend, i, bars[i].ts, plan.value.side, exit.net, exit.reason, exit.held)];
          busyUntil := i + exit.held;
        }
      }
      i := i + 1;
    }
  }

  lemma PullbackSetup(bars: seq<Bar>, i: nat, router: bool, ema: seq<real>)
    requires FLUSH_LOOKBACK <= i < |bars| == |ema| && ValidTape(bars)
    requires forall k :: 0 <= k < |ema| ==> ema[k] == EmaAt(Closes(bars), k)
    ensures PullbackAt(bars, i, router, ema[i], ema[i - TREND_SLOPE_BARS]) == Setup(bars, PullbackTrend, i, router)
  {
    hide PullbackAt, EmaAt;
  }

  // ---------- laws of a book ----------

  function Last(t: Trade): nat {
    t.at + t.held
  }

  /** The trade is the one its bar's setup calls for, and it is within its bounds. */
  ghost predicate Faithful(bars: seq<Bar>, router: bool, t: Trade)
    requires ValidTape(bars)
  {
    && FLUSH_LOOKBACK <= t.at < |bars| - 1
    && var plan := Setup(bars, t.sleeve, t.at, router);
    && plan.Some? && SoundPlan(plan.value)
    && t == TradeOf(bars, t.sleeve, t.at, plan.value)
    && WithinRisk(plan.value, t.net)
    && 1 <= t.held <= MAX_HOLD_BARS && Last(t) < |bars|
  }

  function TotalHeld(trades: seq<Trade>): nat {
    if trades == [] then 0 else trades[0].held + TotalHeld(trades[1..])
  }

  lemma EntryFaithful(bars: seq<Bar>, sleeve: Sleeve, router: bool, i: nat)
    requires FLUSH_LOOKBACK <= i < |bars| - 1 && ValidTape(bars) && Setup(bars, sleeve, i, router).Some?
    ensures var p := Setup(bars, sleeve, i, router).value;
            SoundPlan(p) && Faithful(bars, router, TradeOf(bars, sleeve, i, p))
  {
    PlanSound(bars, sleeve, i, router);
    hide Setup, ExitOf, SoundPlan, WithinRisk;
    ExitBounded(bars, i, Setup(bars, sleeve, i, router).value);
  }

  ghost predicate Apart(trades: seq<Trade>, i: nat, busyUntil: int) {
    && (forall k :: 0 <= k < |trades| ==> trades[k].at >= i && trades[k].at > busyUntil)
    && forall j, k :: 0 <= j < k < |trades| ==> Last(trades[j]) < trades[k].at
  }

  lemma ApartPrepend(t: Trade, rest: seq<Trade>, i: nat, busyUntil: int)
    requires t.at == i && i > busyUntil && Apart(rest, i + 1, Last(t))
    ensures Apart([t] + rest, i, busyUntil)
  {
  }

  lemma ApartWeaken(trades: seq<Trade>, i: nat, busyUntil: int)
    requires Apart(trades, i + 1, busyUntil)
    ensures Apart(trades, i, busyUntil)
  {
  }

  /** One position at a time: every entry is strictly after the previous exit, and
      every trade is the faithful, bounded outcome of its own setup. */
  lemma {:induction false} OnePositionAtATime(bars: seq<Bar>, sleeve: Sleeve, router: bool, i: nat, busyUntil: int)
    requires FLUSH_LOOKBACK <= i && ValidTape(bars)
    ensures Apart(Book(bars, sleeve, router, i, busyUntil), i, busyUntil)
    ensures forall t :: t in Book(bars, sleeve, router, i, busyUntil) ==>
      t.sleeve == sleeve && Faithful(bars, router, t)
    decreases |bars| - i
  {
    hide Setup, ValidTape, TradeOf, Apart, Faithful, SoundPlan;
    if i >= |bars| - 1 {
      NothingApart(i, busyUntil);
    } else if i <= busyUntil || Setup(bars, sleeve, i, router).None? {
      OnePositionAtATime(bars, sleeve, router, i + 1, busyUntil);
      ApartWeaken(Book(bars, sleeve, router, i + 1, busyUntil), i, busyUntil);
    } else {
      EntryFaithful(bars, sleeve, router, i);
      PlanSound(bars, sleeve, i, router);
      EntryPrice(Setup(bars, sleeve, i, router).value);
      var t := TradeOf(bars, sleeve, i, Setup(bars, sleeve, i, router).value);
      TradePlace(bars, sleeve, i, Setup(bars, sleeve, i, router).value);
      OnePositionAtATime(bars, sleeve, router, i + 1, i + t.held);
      ApartPrepend(t, Book(bars, sleeve, router, i + 1, i + t.held), i, busyUntil);
    }
  }

  lemma NothingApart(i: nat, busyUntil: int)
    ensures Apart([], i, busyUntil)
  {
  }

  lemma EntryPrice(p: Plan)
    requires SoundPlan(p)
    ensures p.entry > 0.0
  {
  }

  lemma TradePlace(bars: seq<Bar>, sleeve: Sleeve, i: nat, plan: Plan)
    requires 1 <= i < |bars| - 1 && plan.entry > 0.0
    ensures TradeOf(bars, sleeve, i, plan).at == i && TradeOf(bars, sleeve, i, plan).sleeve == sleeve
  {
  }

  /** Time in the market never exceeds the tape. */
  lemma {:induction false} HeldWithinTape(bars: seq<Bar>, trades: seq<Trade>, from: nat, busyUntil: int)
    requires Apart(trades, from, busyUntil) && from < |bars|
    requires forall k :: 0 <= k < |trades| ==> Last(trades[k]) < |bars|
    ensures TotalHeld(trades) <= |bars| - 1 - from
  {
    if trades != [] {
      assert Last(trades[0]) < |bars|;
      if |trades| > 1 {
        assert Last(trades[1]) < |bars|;
        HeldWithinTape(bars, trades[1..], Last(trades[0]) + 1, -1);
      }
    }
  }

  lemma BookWithinTape(bars: seq<Bar>, sleeve: Sleeve, router: bool, start: nat)
    requires ValidTape(bars) && FirstBar(sleeve, start) < |bars|
    ensures TotalHeld(Book(bars, sleeve, router, FirstBar(sleeve, start), -1)) <= |bars| - 1 - FirstBar(sleeve, start)
  {
    hide Book, Apart, TotalHeld;
    var i := FirstBar(sleeve, start);
    var trades := Book(bars, sleeve, router, i, -1);
    OnePositionAtATime(bars, sleeve, router, i, -1);
    forall k | 0 <= k < |trades| ensures Last(trades[k]) < |bars| {
      var t := trades[k];
      assert t in trades;
    }
    HeldWithinTape(bars, trades, i, -1);
  }

  ghost predicate Taken(trades: seq<Trade>, m: nat) {
    exists t :: t in trades && t.at <= m <= Last(t)
  }

  /** No setup is missed: each is entered, or falls while an earlier one is held. */
  lemma {:induction false} EverySetupTaken(bars: seq<Bar>, sleeve: Sleeve, router: bool, i: nat, busyUntil: int, m: nat)
    requires FLUSH_LOOKBACK <= i <= m < |bars| - 1 && ValidTape(bars)
    requires Setup(bars, sleeve, m, router).Some?
    ensures m <= busyUntil || Taken(Book(bars, sleeve, router, i, busyUntil), m)
    decreases |bars| - i
  {
    hide Setup, ValidTape, TradeOf, SoundPlan;
    if i <= busyUntil || Setup(bars, sleeve, i, router).None? {
      if i < m {
        EverySetupTaken(bars, sleeve, router, i + 1, busyUntil, m);
      }
    } else {
      PlanSound(bars, sleeve, i, router);
      EntryPrice(Setup(bars, sleeve, i, router).value);
      var t := TradeOf(bars, sleeve, i, Setup(bars, sleeve, i, router).value);
      TradePlace(bars, sleeve, i, Setup(bars, sleeve, i, router).value);
      var book := Book(bars, sleeve, router, i, busyUntil);
      assert book[0] == t && t in book;
      if m > Last(t) {
        EverySetupTaken(bars, sleeve, router, i + 1, i + t.held, m);
        var rest := Book(bars, sleeve, router, i + 1, i + t.held);
        var u :| u in rest && u.at <= m <= Last(u);
        assert u in book;
      }
    }
  }
}
