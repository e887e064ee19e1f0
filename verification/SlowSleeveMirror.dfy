/** How symmetric the slow sleeves are: prices reflected about a level turn a long
    setup into a short one and its exit into the same exit. The flush sleeve is
    symmetric except on bars that are both setups at once, which it always takes long;
    the pullback sleeve except where the router's relative drift test tells the two
    tapes apart. */
module SlowSleeveMirror {
  import opened Columns
  import opened Common
  import opened SlowSleeve

  function MirrorBar(c: real, b: Bar): Bar {
    b.(open := c - b.open, high := c - b.low, low := c - b.high, close := c - b.close)
  }

  function MirrorBars(c: real, bars: seq<Bar>): (m: seq<Bar>)
    ensures |m| == |bars| && forall k :: 0 <= k < |m| ==> m[k] == MirrorBar(c, bars[k])
  {
    seq(|bars|, k requires 0 <= k < |bars| => MirrorBar(c, bars[k]))
  }

  function MirrorPlan(c: real, p: Plan): Plan {
    Plan(Opposite(p.side), c - p.entry, c - p.stop, p.risk)
  }

  function MirrorSetup(c: real, p: Option<Plan>): Option<Plan> {
    if p.Some? then Some(MirrorPlan(c, p.value)) else None
  }

  // ---------- indicators ----------

  lemma AtrMirror(c: real, bars: seq<Bar>, i: nat, period: nat)
    requires 2 <= i <= |bars| && period >= 1
    ensures SlowSleeve.Atr(MirrorBars(c, bars), i, period) == SlowSleeve.Atr(bars, i, period)
  {
    hide TrueRange;
    var m, lo := MirrorBars(c, bars), if 1 < i - period then i - period else 1;
    var s, t := TrueRanges(m, lo, i), TrueRanges(bars, lo, i);
    forall k | 0 <= k < i - lo ensures s[k] == t[k] {
      TrueRangeMirror(c, bars, lo + k);
    }
    assert s == t;
  }

  lemma TrueRangeMirror(c: real, bars: seq<Bar>, j: nat)
    requires 1 <= j < |bars|
    ensures TrueRange(MirrorBars(c, bars), j) == TrueRange(bars, j)
  {
  }

  lemma {:induction false} EmaMirror(c: real, xs: seq<real>, ys: seq<real>, i: nat)
    requires Reflects(c, xs, ys) && i < |xs|
    ensures EmaAt(ys, i) == c - EmaAt(xs, i)
  {
    if i > 0 {
      EmaMirror(c, xs, ys, i - 1);
    }
  }

  lemma VolumeMirror(c: real, bars: seq<Bar>, i: nat)
    requires i < |bars|
    ensures VolumeMean(MirrorBars(c, bars), i) == VolumeMean(bars, i)
  {
    hide Mean;
    if i >= 24 {
      assert Volumes(MirrorBars(c, bars)[i - 24..i]) == Volumes(bars[i - 24..i]);
    }
  }

  // ---------- setups ----------

  lemma FlushSidesMirror(c: real, bars: seq<Bar>, i: nat)
    requires FLUSH_LOOKBACK <= i < |bars|
    ensures FlushLong(MirrorBars(c, bars), i) <==> FlushShort(bars, i)
    ensures FlushShort(MirrorBars(c, bars), i) <==> FlushLong(bars, i)
  {
    hide PriorLow, PriorHigh, VolumeMean;
    VolumeMirror(c, bars, i);
    PriorMirror(c, bars, i);
  }

  lemma PriorMirror(c: real, bars: seq<Bar>, i: nat)
    requires FLUSH_LOOKBACK <= i < |bars|
    ensures PriorLow(MirrorBars(c, bars), i) == c - PriorHigh(bars, i)
    ensures PriorHigh(MirrorBars(c, bars), i) == c - PriorLow(bars, i)
  {
    WindowReflects(c, bars, i - FLUSH_LOOKBACK, i);
    hide MinOf, MaxOf, Reflects;
    var m := MirrorBars(c, bars);
    ExtremesReflect(c, Highs(bars[i - FLUSH_LOOKBACK..i]), Lows(m[i - FLUSH_LOOKBACK..i]));
    ExtremesReflect(c, Lows(bars[i - FLUSH_LOOKBACK..i]), Highs(m[i - FLUSH_LOOKBACK..i]));
  }

  lemma WindowReflects(c: real, bars: seq<Bar>, from: nat, to: nat)
    requires from < to <= |bars|
    ensures Reflects(c, Highs(bars[from..to]), Lows(MirrorBars(c, bars)[from..to]))
    ensures Reflects(c, Lows(bars[from..to]), Highs(MirrorBars(c, bars)[from..to]))
  {
  }

  lemma PlanMirror(c: real, b: Bar, long: bool, short: bool, atr: real)
    requires !(long && short)
    ensures PlanFor(MirrorBar(c, b), short, long, atr) == MirrorSetup(c, PlanFor(b, long, short, atr))
  {
  }

  /** The stress gate compares two average ranges, which reflection leaves alone. */
  lemma StressMirror(c: real, bars: seq<Bar>, i: nat)
    requires i < |bars| && ValidTape(bars) && ValidTape(MirrorBars(c, bars))
    ensures RegimeAt(MirrorBars(c, bars), i) == Stress <==> RegimeAt(bars, i) == Stress
  {
    hide SlowSleeve.Atr, DriftBps;
    if i >= VR_LONG + 2 {
      AtrMirror(c, bars, i, VR_LONG);
      AtrMirror(c, bars, i, VR_SHORT);
    }
  }

  /** The flush sleeve looks for a setup on the bar at all. */
  predicate FlushOpen(bars: seq<Bar>, i: nat, router: bool)
    requires FLUSH_LOOKBACK <= i < |bars| && ValidTape(bars)
  {
    && !(router && RegimeAt(bars, i) == Stress)
    && SlowSleeve.Atr(bars, i, ATR_PERIOD) > 0.0 && VolumeMean(bars, i) > 0.0
  }

  predicate BothSetups(bars: seq<Bar>, i: nat)
    requires FLUSH_LOOKBACK <= i < |bars|
  {
    FlushLong(bars, i) && FlushShort(bars, i)
  }

  lemma FlushPlanParts(bars: seq<Bar>, i: nat, router: bool)
    requires FLUSH_LOOKBACK <= i < |bars| && ValidTape(bars)
    ensures FlushPlan(bars, i, router)
         == if !FlushOpen(bars, i, router) then None
            else PlanFor(bars[i], FlushLong(bars, i), FlushShort(bars, i), SlowSleeve.Atr(bars, i, ATR_PERIOD))
  {
    hide FlushLong, FlushShort, SlowSleeve.Atr, VolumeMean, RegimeAt, PlanFor;
  }

  lemma FlushOpenMirror(c: real, bars: seq<Bar>, i: nat, router: bool)
    requires FLUSH_LOOKBACK <= i < |bars| && ValidTape(bars) && ValidTape(MirrorBars(c, bars))
    ensures FlushOpen(MirrorBars(c, bars), i, router) <==> FlushOpen(bars, i, router)
  {
    hide SlowSleeve.Atr, VolumeMean, RegimeAt;
    AtrMirror(c, bars, i, ATR_PERIOD);
    VolumeMirror(c, bars, i);
    StressMirror(c, bars, i);
  }

  /** With or without the router, the flush sleeve treats a bar and its reflection alike
      exactly when the bar is not a long and a short setup at once on a bar it looks
      at; then it goes long on both. */
  lemma FlushSymmetricExactly(c: real, bars: seq<Bar>, i: nat, router: bool)
    requires FLUSH_LOOKBACK <= i < |bars| && ValidTape(bars) && ValidTape(MirrorBars(c, bars))
    ensures FlushPlan(MirrorBars(c, bars), i, router) == MirrorSetup(c, FlushPlan(bars, i, router))
            <==> !(FlushOpen(bars, i, router) && BothSetups(bars, i))
  {
    var m, atr := MirrorBars(c, bars), SlowSleeve.Atr(bars, i, ATR_PERIOD);
    AtrMirror(c, bars, i, ATR_PERIOD);
    FlushOpenMirror(c, bars, i, router);
    FlushSidesMirror(c, bars, i);
    FlushPlanParts(bars, i, router);
    FlushPlanParts(m, i, router);
    if FlushOpen(bars, i, router) {
      if BothSetups(bars, i) {
        assert ValidBar(bars[i]) && ValidBar(m[i]);
        BothGoLong(bars[i], atr);
        BothGoLong(m[i], atr);
      } else {
        PlanMirror(c, bars[i], FlushLong(bars, i), FlushShort(bars, i), atr);
      }
    }
    hide FlushLong, FlushShort, SlowSleeve.Atr, FlushPlan, FlushOpen, PlanFor, ValidTape;
  }

  lemma BothGoLong(b: Bar, atr: real)
    requires ValidBar(b) && atr > 0.0
    ensures PlanFor(b, true, true, atr).Some? && PlanFor(b, true, true, atr).value.side == Long
  {
  }

  /** The volatility ratio alone settles whether the pullback sleeve may trade. */
  predicate VolatilitySettles(bars: seq<Bar>, i: nat)
    requires i < |bars|
  {
    || i < VR_LONG + 2
    || SlowSleeve.Atr(bars, i, VR_LONG) <= 0.0
    || SlowSleeve.Atr(bars, i, VR_SHORT) / SlowSleeve.Atr(bars, i, VR_LONG) >= VR_EXPAND
  }

  /** The drift test gives the same answer on both tapes: one move, measured against a
      price and against c minus that price, is on one side of the threshold. */
  predicate DriftAgrees(c: real, bars: seq<Bar>, i: nat)
    requires i < |bars|
  {
    i >= 26 ==>
      var from, move := bars[i - 25].close, Abs(bars[i - 1].close - bars[i - 25].close) * 10000.0;
      move >= DRIFT_BPS_EXPAND * (c - from) <==> move >= DRIFT_BPS_EXPAND * from
  }

  /** Drift is relative: the same move, measured against c minus the price. */
  lemma DriftMirror(c: real, bars: seq<Bar>, i: nat)
    requires 26 <= i < |bars| && ValidTape(bars) && ValidTape(MirrorBars(c, bars))
    ensures var from := bars[i - 25].close;
            Times(DriftBps(MirrorBars(c, bars), i), c - from) == Times(DriftBps(bars, i), from)
  {
    var from, to := bars[i - 25].close, bars[i - 1].close;
    assert ValidBar(bars[i - 25]) && ValidBar(MirrorBars(c, bars)[i - 25]);
    RelativeMove(from, to);
    RelativeMove(c - from, c - to);
  }

  lemma DriftAgreesExactly(c: real, bars: seq<Bar>, i: nat)
    requires i < |bars| && ValidTape(bars) && ValidTape(MirrorBars(c, bars))
    ensures DriftAgrees(c, bars, i)
            <==> (DriftBps(MirrorBars(c, bars), i) >= DRIFT_BPS_EXPAND <==> DriftBps(bars, i) >= DRIFT_BPS_EXPAND)
  {
    if i >= 26 {
      var from, to := bars[i - 25].close, bars[i - 1].close;
      assert ValidBar(bars[i - 25]) && ValidBar(MirrorBars(c, bars)[i - 25]);
      DriftReaches(from, to);
      DriftReaches(c - from, c - to);
    }
  }

  lemma DriftReaches(from: real, to: real)
    requires from > 0.0
    ensures Abs(to / from - 1.0) * 10000.0 >= DRIFT_BPS_EXPAND <==> Abs(to - from) * 10000.0 >= DRIFT_BPS_EXPAND * from
  {
    RelativeMove(from, to);
    AtLeast(Abs(to / from - 1.0) * 10000.0, DRIFT_BPS_EXPAND, from);
  }

  lemma AtLeast(x: real, y: real, k: real)
    requires k > 0.0
    ensures x >= y <==> Times(x, k) >= y * k
  {
  }

  lemma RelativeMove(from: real, to: real)
    requires from > 0.0
    ensures Times(Abs(to / from - 1.0) * 10000.0, from) == Abs(to - from) * 10000.0
  {
    var q := to / from;
    assert q * from == to;
    assert (q - 1.0) * from == to - from;
    Scaled(q - 1.0, from);
    TimesOut(Abs(q - 1.0), from);
  }

  lemma Scaled(x: real, k: real)
    requires k > 0.0
    ensures Abs(x) * k == Abs(x * k)
  {
  }

  lemma ExpandsAlikeExactly(c: real, bars: seq<Bar>, i: nat)
    requires i < |bars| && ValidTape(bars) && ValidTape(MirrorBars(c, bars))
    ensures (RegimeAt(MirrorBars(c, bars), i) == Expand <==> RegimeAt(bars, i) == Expand)
            <==> VolatilitySettles(bars, i) || DriftAgrees(c, bars, i)
  {
    hide SlowSleeve.Atr, DriftBps, DriftAgrees;
    DriftAgreesExactly(c, bars, i);
    if i >= VR_LONG + 2 {
      AtrMirror(c, bars, i, VR_LONG);
      AtrMirror(c, bars, i, VR_SHORT);
    }
  }

  lemma PullbackParts(bars: seq<Bar>, i: nat, router: bool)
    requires FLUSH_LOOKBACK <= i < |bars| && ValidTape(bars)
    ensures PullbackPlan(bars, i, router)
         == if router && RegimeAt(bars, i) != Expand then None else PullbackPlan(bars, i, false)
  {
    hide SlowSleeve.Atr, EmaAt, PlanFor, RegimeAt;
  }

  lemma UnroutedPullback(c: real, bars: seq<Bar>, i: nat)
    requires FLUSH_LOOKBACK <= i < |bars| && ValidTape(bars) && ValidTape(MirrorBars(c, bars))
    ensures PullbackPlan(MirrorBars(c, bars), i, false) == MirrorSetup(c, PullbackPlan(bars, i, false))
  {
    hide SlowSleeve.Atr, EmaAt, PlanFor;
    var m := MirrorBars(c, bars);
    AtrMirror(c, bars, i, ATR_PERIOD);
    EmaMirror(c, Closes(bars), Closes(m), i);
    EmaMirror(c, Closes(bars), Closes(m), i - TREND_SLOPE_BARS);
    var now, back, b := EmaAt(Closes(bars), i), EmaAt(Closes(bars), i - TREND_SLOPE_BARS), bars[i];
    PlanMirror(c, b, now > back && b.low <= now < b.close, now < back && b.high >= now > b.close,
               SlowSleeve.Atr(bars, i, ATR_PERIOD));
  }

  ghost predicate GateAlike(c: real, bars: seq<Bar>, i: nat, router: bool)
    requires FLUSH_LOOKBACK <= i < |bars| && ValidTape(bars) && ValidTape(MirrorBars(c, bars))
  {
    !router || PullbackPlan(bars, i, false).None? || VolatilitySettles(bars, i) || DriftAgrees(c, bars, i)
  }

  /** The pullback sleeve treats a bar and its reflection alike exactly when there is
      nothing to gate, or the gate does not come down to a drift test that tells the
      two tapes apart. Without the router that is everywhere. */
  lemma PullbackSymmetricExactly(c: real, bars: seq<Bar>, i: nat, router: bool)
    requires FLUSH_LOOKBACK <= i < |bars| && ValidTape(bars) && ValidTape(MirrorBars(c, bars))
    ensures PullbackPlan(MirrorBars(c, bars), i, router) == MirrorSetup(c, PullbackPlan(bars, i, router))
            <==> GateAlike(c, bars, i, router)
  {
    UnroutedPullback(c, bars, i);
    PullbackParts(bars, i, router);
    PullbackParts(MirrorBars(c, bars), i, router);
    ExpandsAlikeExactly(c, bars, i);
    hide PullbackPlan, VolatilitySettles, DriftAgrees, RegimeAt, ValidTape;
  }

  // ---------- exits ----------

  /** The move a net result stands for, in price units. */
  function Move(entry: real, net: real): real {
    Times(net + ROUND_TRIP, entry)
  }

  lemma MoveMirror(c: real, side: Side, entry: real, price: real)
    requires entry > 0.0 && c - entry > 0.0
    ensures Move(c - entry, NetBps(Opposite(side), c - entry, c - price)) == Move(entry, NetBps(side, entry, price))
  {
    MoveOf(side, entry, price);
    MoveOf(Opposite(side), c - entry, c - price);
  }

  lemma MoveOf(side: Side, entry: real, price: real)
    requires entry > 0.0
    ensures Move(entry, NetBps(side, entry, price)) == Sign(side) * (price - entry) * 10000.0
  {
    var q := price / entry;
    assert q * entry == price;
    if side == Long {
      TimesOut(q - 1.0, entry);
      assert (q - 1.0) * entry == price - entry;
    } else {
      TimesOut(1.0 - q, entry);
      assert (1.0 - q) * entry == entry - price;
    }
  }

  lemma TimesOut(x: real, entry: real)
    ensures Times(x * 10000.0, entry) == x * entry * 10000.0
  {
  }

  /** The reflected position leaves on the same bar, for the same reason, after the
      same move. */
  lemma {:induction false} ExitFromMirror(c: real, bars: seq<Bar>, i: nat, j: nat, p: Plan, extreme: real, stop: real)
    requires 1 <= i < |bars| - 1 && i < j <= Horizon(bars, i) + 1 && p.entry > 0.0 && c - p.entry > 0.0
    ensures var m := MirrorBars(c, bars);
            var x, y := ExitFrom(bars, i, j, p, extreme, stop),
              ExitFrom(m, i, j, MirrorPlan(c, p), c - extreme, c - stop);
            y.held == x.held && y.reason == x.reason && Move(c - p.entry, y.net) == Move(p.entry, x.net)
    decreases |bars| - j
  {
    hide NetBps, Move, NextStop, ValidTape;
    var m, q := MirrorBars(c, bars), MirrorPlan(c, p);
    if j > Horizon(bars, i) {
      MoveMirror(c, p.side, p.entry, bars[Horizon(bars, i)].close);
    } else if Hit(p.side, bars[j], stop) {
      MoveMirror(c, p.side, p.entry, stop);
    } else {
      var best := Extreme(p.side, extreme, bars[j]);
      StopMirror(c, bars, j, p, best, stop);
      ExitFromMirror(c, bars, i, j + 1, p, best, NextStop(bars, j, p, best, stop));
    }
  }

  lemma StopMirror(c: real, bars: seq<Bar>, j: nat, p: Plan, extreme: real, stop: real)
    requires 2 <= j <= |bars|
    ensures NextStop(MirrorBars(c, bars), j, MirrorPlan(c, p), c - extreme, c - stop)
         == c - NextStop(bars, j, p, extreme, stop)
  {
    hide SlowSleeve.Atr;
    AtrMirror(c, bars, j, ATR_PERIOD);
  }

  lemma ExitSymmetric(c: real, bars: seq<Bar>, i: nat, p: Plan)
    requires 1 <= i < |bars| - 1 && p.entry > 0.0 && c - p.entry > 0.0
    ensures var x, y := ExitOf(bars, i, p), ExitOf(MirrorBars(c, bars), i, MirrorPlan(c, p));
            y.held == x.held && y.reason == x.reason && Move(c - p.entry, y.net) == Move(p.entry, x.net)
  {
    hide ExitFrom, Move;
    ExitFromMirror(c, bars, i, i + 1, p, p.entry, p.stop);
  }

  // ---------- whole books ----------

  /** The same trade on the other side: same bars, same reason, same move in price. */
  ghost predicate ReflectedTrade(c: real, bars: seq<Bar>, t: Trade, u: Trade) {
    && t.at < |bars|
    && u == t.(side := Opposite(t.side), net := u.net)
    && Move(c - bars[t.at].close, u.net) == Move(bars[t.at].close, t.net)
  }

  ghost predicate ReflectedBook(c: real, bars: seq<Bar>, trades: seq<Trade>, mirrored: seq<Trade>) {
    |mirrored| == |trades| && forall k :: 0 <= k < |trades| ==> ReflectedTrade(c, bars, trades[k], mirrored[k])
  }

  ghost predicate Alike(c: real, bars: seq<Bar>, sleeve: Sleeve, i: nat, router: bool)
    requires FLUSH_LOOKBACK <= i < |bars| && ValidTape(bars) && ValidTape(MirrorBars(c, bars))
  {
    Setup(MirrorBars(c, bars), sleeve, i, router) == MirrorSetup(c, Setup(bars, sleeve, i, router))
  }

  lemma TradeMirror(c: real, bars: seq<Bar>, sleeve: Sleeve, i: nat, router: bool)
    requires FLUSH_LOOKBACK <= i < |bars| - 1 && ValidTape(bars) && ValidTape(MirrorBars(c, bars))
    requires Alike(c, bars, sleeve, i, router) && Setup(bars, sleeve, i, router).Some?
    ensures var p := Setup(bars, sleeve, i, router).value;
            && p.entry > 0.0 && c - p.entry > 0.0
            && ReflectedTrade(c, bars, TradeOf(bars, sleeve, i, p),
                              TradeOf(MirrorBars(c, bars), sleeve, i, MirrorPlan(c, p)))
  {
    hide Setup, ExitOf, Move, ValidTape;
    EntriesMatch(c, bars, sleeve, i, router);
    ExitSymmetric(c, bars, i, Setup(bars, sleeve, i, router).value);
  }

  lemma EntriesMatch(c: real, bars: seq<Bar>, sleeve: Sleeve, i: nat, router: bool)
    requires FLUSH_LOOKBACK <= i < |bars| - 1 && ValidTape(bars) && ValidTape(MirrorBars(c, bars))
    requires Alike(c, bars, sleeve, i, router) && Setup(bars, sleeve, i, router).Some?
    ensures var p := Setup(bars, sleeve, i, router).value;
            p.entry == bars[i].close && p.entry > 0.0 && c - p.entry > 0.0
  {
    hide Setup, ValidTape;
    PlanSound(bars, sleeve, i, router);
    PlanSound(MirrorBars(c, bars), sleeve, i, router);
  }

  lemma BookPrepend(c: real, bars: seq<Bar>, t: Trade, u: Trade, rest: seq<Trade>, mirrored: seq<Trade>)
    requires ReflectedTrade(c, bars, t, u) && ReflectedBook(c, bars, rest, mirrored)
    ensures ReflectedBook(c, bars, [t] + rest, [u] + mirrored)
  {
    hide ReflectedTrade;
  }

  /** Setups are alike on every bar the book looks at while no position is held. */
  ghost predicate AlikeWhereFree(c: real, bars: seq<Bar>, sleeve: Sleeve, router: bool, i: nat, busyUntil: int)
    requires FLUSH_LOOKBACK <= i && ValidTape(bars) && ValidTape(MirrorBars(c, bars))
    decreases |bars| - i
  {
    if i >= |bars| - 1 then true
    else if i <= busyUntil then AlikeWhereFree(c, bars, sleeve, router, i + 1, busyUntil)
    else
      && Alike(c, bars, sleeve, i, router)
      && var plan := Setup(bars, sleeve, i, router);
      if plan.None? then AlikeWhereFree(c, bars, sleeve, router, i + 1, busyUntil)
      else
        PlanSound(bars, sleeve, i, router);
        AlikeWhereFree(c, bars, sleeve, router, i + 1, i + TradeOf(bars, sleeve, i, plan.value).held)
  }

  lemma {:induction false} BookMirror(c: real, bars: seq<Bar>, sleeve: Sleeve, router: bool, i: nat, busyUntil: int)
    requires FLUSH_LOOKBACK <= i && ValidTape(bars) && ValidTape(MirrorBars(c, bars))
    requires AlikeWhereFree(c, bars, sleeve, router, i, busyUntil)
    ensures ReflectedBook(c, bars, Book(bars, sleeve, router, i, busyUntil),
                          Book(MirrorBars(c, bars), sleeve, router, i, busyUntil))
    decreases |bars| - i
  {
    hide Setup, ValidTape, TradeOf, ReflectedBook, ReflectedTrade, SoundPlan;
    var m := MirrorBars(c, bars);
    if i >= |bars| - 1 {
      EmptyBooks(c, bars);
    } else if i <= busyUntil || Setup(bars, sleeve, i, router).None? {
      BookMirror(c, bars, sleeve, router, i + 1, busyUntil);
    } else {
      TradeMirror(c, bars, sleeve, i, router);
      var p := Setup(bars, sleeve, i, router).value;
      var t, u := TradeOf(bars, sleeve, i, p), TradeOf(m, sleeve, i, MirrorPlan(c, p));
      SameHeld(c, bars, t, u);
      BookMirror(c, bars, sleeve, router, i + 1, i + t.held);
      BookPrepend(c, bars, t, u, Book(bars, sleeve, router, i + 1, i + t.held),
                  Book(m, sleeve, router, i + 1, i + t.held));
    }
  }

  lemma EmptyBooks(c: real, bars: seq<Bar>)
    ensures ReflectedBook(c, bars, [], [])
  {
  }

  lemma SameHeld(c: real, bars: seq<Bar>, t: Trade, u: Trade)
    requires ReflectedTrade(c, bars, t, u)
    ensures u.held == t.held
  {
  }

  ghost predicate NoDoubleEntry(bars: seq<Bar>, trades: seq<Trade>) {
    forall t :: t in trades ==> FLUSH_LOOKBACK <= t.at < |bars| && !BothSetups(bars, t.at)
  }

  lemma {:induction false} FlushAlike(c: real, bars: seq<Bar>, router: bool, i: nat, busyUntil: int)
    requires FLUSH_LOOKBACK <= i && ValidTape(bars) && ValidTape(MirrorBars(c, bars))
    requires NoDoubleEntry(bars, Book(bars, FlushReclaim, router, i, busyUntil))
    ensures AlikeWhereFree(c, bars, FlushReclaim, router, i, busyUntil)
    decreases |bars| - i
  {
    hide FlushPlan, ValidTape, TradeOf, BothSetups, FlushOpen, SoundPlan;
    if i < |bars| - 1 {
      if i <= busyUntil {
        FlushAlike(c, bars, router, i + 1, busyUntil);
      } else {
        FlushSymmetricExactly(c, bars, i, router);
        var plan := FlushPlan(bars, i, router);
        if plan.None? {
          NothingDoubled(bars, i, router);
          FlushAlike(c, bars, router, i + 1, busyUntil);
        } else {
          PlanSound(bars, FlushReclaim, i, router);
          EntryPrice(plan.value);
          TradePlace(bars, FlushReclaim, i, plan.value);
          var t := TradeOf(bars, FlushReclaim, i, plan.value);
          var book := Book(bars, FlushReclaim, router, i, busyUntil);
          assert book[0] == t && t in book;
          var rest := Book(bars, FlushReclaim, router, i + 1, i + t.held);
          assert forall x :: x in rest ==> x in book;
          FlushAlike(c, bars, router, i + 1, i + t.held);
        }
      }
    }
  }

  /** A double setup on a bar the sleeve looks at always makes a plan. */
  lemma NothingDoubled(bars: seq<Bar>, i: nat, router: bool)
    requires FLUSH_LOOKBACK <= i < |bars| && ValidTape(bars) && FlushPlan(bars, i, router).None?
    ensures !(FlushOpen(bars, i, router) && BothSetups(bars, i))
  {
    FlushPlanParts(bars, i, router);
    if FlushOpen(bars, i, router) && BothSetups(bars, i) {
      assert ValidBar(bars[i]);
      BothGoLong(bars[i], SlowSleeve.Atr(bars, i, ATR_PERIOD));
    }
  }

  lemma DoubleGoesLong(bars: seq<Bar>, i: nat, router: bool)
    requires FLUSH_LOOKBACK <= i < |bars| && ValidTape(bars) && BothSetups(bars, i)
    requires FlushPlan(bars, i, router).Some?
    ensures FlushPlan(bars, i, router).value.side == Long
  {
    hide SlowSleeve.Atr, VolumeMean, RegimeAt, PriorLow, PriorHigh;
  }

  /** The flush book of the reflected tape is the reflected book exactly when the book
      enters no bar that is both setups at once, with or without the router. */
  lemma FlushBookSymmetricExactly(c: real, bars: seq<Bar>, router: bool, i: nat, busyUntil: int)
    requires FLUSH_LOOKBACK <= i && ValidTape(bars) && ValidTape(MirrorBars(c, bars))
    ensures var book := Book(bars, FlushReclaim, router, i, busyUntil);
            ReflectedBook(c, bars, book, Book(MirrorBars(c, bars), FlushReclaim, router, i, busyUntil))
            <==> NoDoubleEntry(bars, book)
  {
    var m := MirrorBars(c, bars);
    var book, mirrored := Book(bars, FlushReclaim, router, i, busyUntil), Book(m, FlushReclaim, router, i, busyUntil);
    hide Book, FlushPlan, ValidTape, BothSetups;
    OnePositionAtATime(bars, FlushReclaim, router, i, busyUntil);
    OnePositionAtATime(m, FlushReclaim, router, i, busyUntil);
    if NoDoubleEntry(bars, book) {
      FlushAlike(c, bars, router, i, busyUntil);
      BookMirror(c, bars, FlushReclaim, router, i, busyUntil);
    } else {
      var t :| t in book && !(FLUSH_LOOKBACK <= t.at < |bars| && !BothSetups(bars, t.at));
      var k :| 0 <= k < |book| && book[k] == t;
      if ReflectedBook(c, bars, book, mirrored) {
        var u := mirrored[k];
        assert u in mirrored && ReflectedTrade(c, bars, t, u);
        DoubleOnBoth(c, bars, t.at);
        EntrySide(bars, router, t);
        EntrySide(m, router, u);
        DoubleGoesLong(bars, t.at, router);
        DoubleGoesLong(m, t.at, router);
        assert false;
      }
    }
  }

  lemma DoubleOnBoth(c: real, bars: seq<Bar>, i: nat)
    requires FLUSH_LOOKBACK <= i < |bars| && BothSetups(bars, i)
    ensures BothSetups(MirrorBars(c, bars), i)
  {
    FlushSidesMirror(c, bars, i);
    hide FlushLong, FlushShort;
  }

  lemma EntrySide(bars: seq<Bar>, router: bool, t: Trade)
    requires ValidTape(bars) && Faithful(bars, router, t) && t.sleeve == FlushReclaim
    ensures FlushPlan(bars, t.at, router).Some? && t.side == FlushPlan(bars, t.at, router).value.side
  {
    hide FlushPlan, ExitOf, WithinRisk, SoundPlan;
  }

  // ---------- books and their free bars ----------

  /** No position is held into bar k. */
  ghost predicate Free(trades: seq<Trade>, busyUntil: int, k: int) {
    k > busyUntil && forall t :: t in trades ==> !(t.at < k <= Last(t))
  }

  ghost predicate AlikeAtFree(c: real, bars: seq<Bar>, sleeve: Sleeve, router: bool, trades: seq<Trade>, i: nat,
                              busyUntil: int)
    requires FLUSH_LOOKBACK <= i && ValidTape(bars) && ValidTape(MirrorBars(c, bars))
  {
    forall k: nat :: i <= k < |bars| - 1 && Free(trades, busyUntil, k) ==> Alike(c, bars, sleeve, k, router)
  }

  lemma FreePrepend(t: Trade, rest: seq<Trade>, busyUntil: int)
    requires busyUntil < t.at && t.held >= 1 && forall u :: u in rest ==> u.at > t.at
    ensures Free([t] + rest, busyUntil, t.at)
    ensures forall k :: k > t.at ==> (Free([t] + rest, busyUntil, k) <==> Free(rest, Last(t), k))
  {
    forall k | k > t.at ensures Free([t] + rest, busyUntil, k) <==> Free(rest, Last(t), k) {
      assert t in [t] + rest;
      assert forall u :: u in [t] + rest <==> u == t || u in rest;
    }
  }

  /** The first trade of a book, and what follows it. */
  lemma BookEnters(bars: seq<Bar>, sleeve: Sleeve, router: bool, i: nat, busyUntil: int)
    requires FLUSH_LOOKBACK <= i < |bars| - 1 && ValidTape(bars) && i > busyUntil
    requires Setup(bars, sleeve, i, router).Some?
    ensures var p := Setup(bars, sleeve, i, router).value;
            && p.entry > 0.0
            && var t := TradeOf(bars, sleeve, i, p);
            && t.at == i && t.held >= 1 && t.side == p.side
            && Book(bars, sleeve, router, i, busyUntil) == [t] + Book(bars, sleeve, router, i + 1, Last(t))
            && forall u :: u in Book(bars, sleeve, router, i + 1, Last(t)) ==> u.at > i
  {
    hide Setup, ExitOf, ValidTape, WithinRisk;
    PlanSound(bars, sleeve, i, router);
    EntryFaithful(bars, sleeve, router, i);
    var t := TradeOf(bars, sleeve, i, Setup(bars, sleeve, i, router).value);
    LaterEntries(bars, sleeve, router, i, Last(t));
  }

  lemma BusyNotFree(trades: seq<Trade>, busyUntil: int, k: int)
    requires k <= busyUntil
    ensures !Free(trades, busyUntil, k)
  {
  }

  lemma LaterEntries(bars: seq<Bar>, sleeve: Sleeve, router: bool, i: nat, busyUntil: int)
    requires FLUSH_LOOKBACK <= i && ValidTape(bars)
    ensures forall t :: t in Book(bars, sleeve, router, i + 1, busyUntil) ==> t.at > i
    ensures i > busyUntil ==> Free(Book(bars, sleeve, router, i + 1, busyUntil), busyUntil, i)
  {
    hide Book, Faithful, ValidTape;
    OnePositionAtATime(bars, sleeve, router, i + 1, busyUntil);
  }

  lemma {:induction false} WhereFreeExactly(c: real, bars: seq<Bar>, sleeve: Sleeve, router: bool, i: nat,
                                            busyUntil: int)
    requires FLUSH_LOOKBACK <= i && ValidTape(bars) && ValidTape(MirrorBars(c, bars))
    ensures AlikeWhereFree(c, bars, sleeve, router, i, busyUntil)
            <==> AlikeAtFree(c, bars, sleeve, router, Book(bars, sleeve, router, i, busyUntil), i, busyUntil)
    decreases |bars| - i
  {
    hide Setup, ValidTape, TradeOf, Alike, SoundPlan, Free;
    if i < |bars| - 1 {
      if i <= busyUntil {
        WhereFreeExactly(c, bars, sleeve, router, i + 1, busyUntil);
        BusyNotFree(Book(bars, sleeve, router, i, busyUntil), busyUntil, i);
      } else if Setup(bars, sleeve, i, router).None? {
        WhereFreeExactly(c, bars, sleeve, router, i + 1, busyUntil);
        LaterEntries(bars, sleeve, router, i, busyUntil);
      } else {
        BookEnters(bars, sleeve, router, i, busyUntil);
        var t := TradeOf(bars, sleeve, i, Setup(bars, sleeve, i, router).value);
        WhereFreeExactly(c, bars, sleeve, router, i + 1, Last(t));
        FreePrepend(t, Book(bars, sleeve, router, i + 1, Last(t)), busyUntil);
      }
    }
  }

  /** Plans on opposite sides of a bar and its reflection are each other's reflection. */
  lemma OppositeAlike(c: real, bars: seq<Bar>, sleeve: Sleeve, i: nat, router: bool)
    requires FLUSH_LOOKBACK <= i < |bars| && ValidTape(bars) && ValidTape(MirrorBars(c, bars))
    requires var p, q := Setup(bars, sleeve, i, router), Setup(MirrorBars(c, bars), sleeve, i, router);
             p.Some? && q.Some? && q.value.side == Opposite(p.value.side)
    ensures Alike(c, bars, sleeve, i, router)
  {
    if sleeve == FlushReclaim {
      hide FlushPlan, BothSetups, FlushOpen;
      FlushSymmetricExactly(c, bars, i, router);
      if BothSetups(bars, i) {
        DoubleOnBoth(c, bars, i);
        DoubleGoesLong(bars, i, router);
        DoubleGoesLong(MirrorBars(c, bars), i, router);
      }
    } else {
      hide PullbackPlan, RegimeAt;
      UnroutedPullback(c, bars, i);
      PullbackParts(bars, i, router);
      PullbackParts(MirrorBars(c, bars), i, router);
    }
  }

  lemma {:induction false} ReflectedAlike(c: real, bars: seq<Bar>, sleeve: Sleeve, router: bool, i: nat, busyUntil: int)
    requires FLUSH_LOOKBACK <= i && ValidTape(bars) && ValidTape(MirrorBars(c, bars))
    requires ReflectedBook(c, bars, Book(bars, sleeve, router, i, busyUntil),
                           Book(MirrorBars(c, bars), sleeve, router, i, busyUntil))
    ensures AlikeWhereFree(c, bars, sleeve, router, i, busyUntil)
    decreases |bars| - i
  {
    hide Setup, ValidTape, TradeOf, ReflectedBook, ReflectedTrade, SoundPlan, Alike;
    var m := MirrorBars(c, bars);
    if i < |bars| - 1 {
      if i <= busyUntil {
        ReflectedAlike(c, bars, sleeve, router, i + 1, busyUntil);
      } else if Setup(bars, sleeve, i, router).Some? {
        BookEnters(bars, sleeve, router, i, busyUntil);
        var t := TradeOf(bars, sleeve, i, Setup(bars, sleeve, i, router).value);
        var rest := Book(bars, sleeve, router, i + 1, Last(t));
        MirrorEnters(c, bars, sleeve, router, i, busyUntil, t, rest);
        ReflectedAlike(c, bars, sleeve, router, i + 1, Last(t));
      } else {
        MirrorPasses(c, bars, sleeve, router, i, busyUntil);
        ReflectedAlike(c, bars, sleeve, router, i + 1, busyUntil);
      }
    }
  }

  lemma ReflectedHeads(c: real, bars: seq<Bar>, trades: seq<Trade>, mirrored: seq<Trade>)
    requires ReflectedBook(c, bars, trades, mirrored) && trades != []
    ensures mirrored != []
    ensures mirrored[0].at == trades[0].at && mirrored[0].held == trades[0].held
    ensures mirrored[0].side == Opposite(trades[0].side)
    ensures ReflectedBook(c, bars, trades[1..], mirrored[1..])
  {
    assert ReflectedTrade(c, bars, trades[0], mirrored[0]);
  }

  lemma ReflectedEntries(c: real, bars: seq<Bar>, trades: seq<Trade>, mirrored: seq<Trade>, i: nat)
    requires ReflectedBook(c, bars, trades, mirrored) && forall t :: t in trades ==> t.at > i
    ensures forall u :: u in mirrored ==> u.at > i
  {
    forall k | 0 <= k < |mirrored| ensures mirrored[k].at > i {
      assert ReflectedTrade(c, bars, trades[k], mirrored[k]) && trades[k] in trades;
    }
  }

  lemma MirrorEnters(c: real, bars: seq<Bar>, sleeve: Sleeve, router: bool, i: nat, busyUntil: int, t: Trade,
                     rest: seq<Trade>)
    requires FLUSH_LOOKBACK <= i < |bars| - 1 && ValidTape(bars) && ValidTape(MirrorBars(c, bars)) && i > busyUntil
    requires Setup(bars, sleeve, i, router).Some? && t.at == i && t.side == Setup(bars, sleeve, i, router).value.side
    requires ReflectedBook(c, bars, [t] + rest, Book(MirrorBars(c, bars), sleeve, router, i, busyUntil))
    ensures Alike(c, bars, sleeve, i, router)
    ensures ReflectedBook(c, bars, rest, Book(MirrorBars(c, bars), sleeve, router, i + 1, Last(t)))
  {
    hide Setup, ValidTape, TradeOf, Alike, ReflectedBook, ReflectedTrade;
    var m := MirrorBars(c, bars);
    var mirrored := Book(m, sleeve, router, i, busyUntil);
    ReflectedHeads(c, bars, [t] + rest, mirrored);
    assert ([t] + rest)[1..] == rest;
    assert mirrored[0].at == i && mirrored[0] in mirrored;
    LaterEntries(m, sleeve, router, i, busyUntil);
    if Setup(m, sleeve, i, router).None? {
      assert false;
    } else {
      BookEnters(m, sleeve, router, i, busyUntil);
      OppositeAlike(c, bars, sleeve, i, router);
      assert mirrored[1..] == Book(m, sleeve, router, i + 1, Last(t));
    }
  }

  lemma MirrorPasses(c: real, bars: seq<Bar>, sleeve: Sleeve, router: bool, i: nat, busyUntil: int)
    requires FLUSH_LOOKBACK <= i < |bars| - 1 && ValidTape(bars) && ValidTape(MirrorBars(c, bars)) && i > busyUntil
    requires Setup(bars, sleeve, i, router).None?
    requires ReflectedBook(c, bars, Book(bars, sleeve, router, i, busyUntil),
                           Book(MirrorBars(c, bars), sleeve, router, i, busyUntil))
    ensures Alike(c, bars, sleeve, i, router)
    ensures ReflectedBook(c, bars, Book(bars, sleeve, router, i + 1, busyUntil),
                          Book(MirrorBars(c, bars), sleeve, router, i + 1, busyUntil))
  {
    hide Setup, ValidTape, TradeOf, ReflectedBook;
    var m := MirrorBars(c, bars);
    LaterEntries(bars, sleeve, router, i, busyUntil);
    ReflectedEntries(c, bars, Book(bars, sleeve, router, i, busyUntil), Book(m, sleeve, router, i, busyUntil), i);
    if Setup(m, sleeve, i, router).Some? {
      BookEnters(m, sleeve, router, i, busyUntil);
    }
  }

  /** For either sleeve, with or without the router: the book of the reflected tape is
      the reflected book exactly when setups are alike on every bar that no position is
      held into. */
  lemma BookSymmetricExactly(c: real, bars: seq<Bar>, sleeve: Sleeve, router: bool, i: nat, busyUntil: int)
    requires FLUSH_LOOKBACK <= i && ValidTape(bars) && ValidTape(MirrorBars(c, bars))
    ensures var book := Book(bars, sleeve, router, i, busyUntil);
            ReflectedBook(c, bars, book, Book(MirrorBars(c, bars), sleeve, router, i, busyUntil))
            <==> AlikeAtFree(c, bars, sleeve, router, book, i, busyUntil)
  {
    hide Book, ReflectedBook, AlikeWhereFree, AlikeAtFree, ValidTape;
    WhereFreeExactly(c, bars, sleeve, router, i, busyUntil);
    if AlikeWhereFree(c, bars, sleeve, router, i, busyUntil) {
      BookMirror(c, bars, sleeve, router, i, busyUntil);
    } else if ReflectedBook(c, bars, Book(bars, sleeve, router, i, busyUntil),
                            Book(MirrorBars(c, bars), sleeve, router, i, busyUntil)) {
      ReflectedAlike(c, bars, sleeve, router, i, busyUntil);
      assert false;
    }
  }

  /** The pullback book of the reflected tape is the reflected book exactly when on every
      free bar there is nothing to gate, or the drift test does not tell the two tapes
      apart. Without the router that is always so. */
  lemma PullbackBookSymmetricExactly(c: real, bars: seq<Bar>, router: bool, i: nat, busyUntil: int)
    requires FLUSH_LOOKBACK <= i && ValidTape(bars) && ValidTape(MirrorBars(c, bars))
    ensures var book := Book(bars, PullbackTrend, router, i, busyUntil);
            ReflectedBook(c, bars, book, Book(MirrorBars(c, bars), PullbackTrend, router, i, busyUntil))
            <==> forall k: nat :: i <= k < |bars| - 1 && Free(book, busyUntil, k) ==> GateAlike(c, bars, k, router)
  {
    hide Book, ReflectedBook, Free, GateAlike, ValidTape;
    BookSymmetricExactly(c, bars, PullbackTrend, router, i, busyUntil);
    var book := Book(bars, PullbackTrend, router, i, busyUntil);
    forall k: nat | i <= k < |bars| - 1
      ensures Alike(c, bars, PullbackTrend, k, router) <==> GateAlike(c, bars, k, router)
    {
      PullbackSymmetricExactly(c, bars, k, router);
    }
  }

  // ---------- the exceptions occur ----------

  lemma MeanOfEqual(s: seq<real>, v: real)
    requires |s| > 0 && forall k :: 0 <= k < |s| ==> s[k] == v
    ensures Mean(s) == v
  {
    SumOfEqual(s, v);
    var n := |s| as real;
    assert n * v / n == v;
  }

  /** Bars of one range give that range as their average. */
  lemma SteadyAtr(bars: seq<Bar>, i: nat, period: nat, v: real)
    requires 2 <= i <= |bars| && period >= 1
    requires forall j: nat :: 1 <= j < i ==> TrueRange(bars, j) == v
    ensures SlowSleeve.Atr(bars, i, period) == v
  {
    hide TrueRange, Mean;
    var lo := if 1 < i - period then i - period else 1;
    MeanOfEqual(TrueRanges(bars, lo, i), v);
  }

  /** Sixty-two quiet bars, a loud outside bar that closes back inside them, and one
      bar more. */
  function DoubleTape(): (bars: seq<Bar>)
    ensures |bars| == 64 && bars[62] == Bar(62, 100.0, 105.0, 95.0, 100.0, 10.0)
    ensures forall k :: 0 <= k < 64 && k != 62 ==> bars[k] == Bar(k, 100.0, 101.0, 99.0, 100.0, 1.0)
  {
    seq(62, k => Bar(k, 100.0, 101.0, 99.0, 100.0, 1.0))
    + [Bar(62, 100.0, 105.0, 95.0, 100.0, 10.0), Bar(63, 100.0, 101.0, 99.0, 100.0, 1.0)]
  }

  lemma DoubleFacts()
    ensures var bars := DoubleTape();
            && ValidTape(bars) && ValidTape(MirrorBars(200.0, bars))
            && SlowSleeve.Atr(bars, 62, ATR_PERIOD) == 2.0 && RegimeAt(bars, 62) != Stress
            && VolumeMean(bars, 62) == 1.0 && PriorLow(bars, 62) == 99.0 && PriorHigh(bars, 62) == 101.0
  {
    hide DoubleTape, SlowSleeve.Atr, VolumeMean, PriorLow, PriorHigh, RegimeAt, TrueRange;
    var bars := DoubleTape();
    DoubleRanges(bars);
    SteadyAtr(bars, 62, ATR_PERIOD, 2.0);
    SteadyRegime(bars, 62, 2.0);
    SteadyVolume(bars, 62, 1.0);
    SteadyExtremes(bars, 62, 99.0, 101.0);
  }

  lemma DoubleRanges(bars: seq<Bar>)
    requires bars == DoubleTape()
    ensures forall j: nat :: 1 <= j < 62 ==> TrueRange(bars, j) == 2.0
  {
    hide DoubleTape;
  }

  lemma SteadyRegime(bars: seq<Bar>, i: nat, v: real)
    requires VR_LONG + 2 <= i <= |bars| && ValidTape(bars) && v > 0.0
    requires forall j: nat :: 1 <= j < i ==> TrueRange(bars, j) == v
    ensures RegimeAt(bars, i) != Stress
  {
    hide TrueRange, SlowSleeve.Atr, DriftBps;
    SteadyAtr(bars, i, VR_LONG, v);
    SteadyAtr(bars, i, VR_SHORT, v);
    assert v / v == 1.0;
  }

  lemma SteadyVolume(bars: seq<Bar>, i: nat, v: real)
    requires 24 <= i < |bars| && forall k :: i - 24 <= k < i ==> bars[k].volume == v
    ensures VolumeMean(bars, i) == v
  {
    hide Mean;
    MeanOfEqual(Volumes(bars[i - 24..i]), v);
  }

  lemma SteadyExtremes(bars: seq<Bar>, i: nat, low: real, high: real)
    requires FLUSH_LOOKBACK <= i <= |bars|
    requires forall k :: i - FLUSH_LOOKBACK <= k < i ==> bars[k].low == low && bars[k].high == high
    ensures PriorLow(bars, i) == low && PriorHigh(bars, i) == high
  {
    hide MinOf, MaxOf;
    var lows, highs := Lows(bars[i - FLUSH_LOOKBACK..i]), Highs(bars[i - FLUSH_LOOKBACK..i]);
    var a :| 0 <= a < |lows| && lows[a] == MinOf(lows);
    var b :| 0 <= b < |highs| && highs[b] == MaxOf(highs);
  }

  /** A double setup on a bar the sleeve really visits: with or without the router the
      plan on the reflected tape is not the reflected plan, and the books differ. */
  lemma BothSetupsOccur(router: bool)
    ensures var bars := DoubleTape();
            var m := MirrorBars(200.0, bars);
            && ValidTape(bars) && ValidTape(m) && FirstBar(FlushReclaim, 0) == 62 < |bars| - 1
            && FlushOpen(bars, 62, router) && BothSetups(bars, 62)
            && FlushPlan(m, 62, router) != MirrorSetup(200.0, FlushPlan(bars, 62, router))
            && !ReflectedBook(200.0, bars, Book(bars, FlushReclaim, router, 62, -1),
                              Book(m, FlushReclaim, router, 62, -1))
  {
    DoubleFacts();
    hide SlowSleeve.Atr, VolumeMean, PriorLow, PriorHigh, RegimeAt, ValidTape, FlushPlan, ReflectedBook, DoubleTape;
    var bars := DoubleTape();
    FlushSymmetricExactly(200.0, bars, 62, router);
    FlushBookSymmetricExactly(200.0, bars, router, 62, -1);
    DoubleEntered(bars, 62, router);
  }

  lemma DoubleEntered(bars: seq<Bar>, i: nat, router: bool)
    requires FLUSH_LOOKBACK <= i < |bars| - 1 && ValidTape(bars) && FlushOpen(bars, i, router) && BothSetups(bars, i)
    ensures !NoDoubleEntry(bars, Book(bars, FlushReclaim, router, i, -1))
  {
    hide FlushPlan, FlushOpen, BothSetups, ValidTape, ExitOf, SoundPlan;
    if FlushPlan(bars, i, router).None? {
      NothingDoubled(bars, i, router);
    } else {
      PlanSound(bars, FlushReclaim, i, router);
      EntryPrice(FlushPlan(bars, i, router).value);
      var book := Book(bars, FlushReclaim, router, i, -1);
      assert book[0].at == i && book[0] in book;
    }
  }

  /** Seventy-one quiet bars, a close one percent up, a touch of the average that closes
      above it, and one bar more. */
  function DriftTape(): (bars: seq<Bar>)
    ensures |bars| == 74
    ensures forall k :: 0 <= k < 71 ==> bars[k] == Bar(k, 100.0, 110.0, 90.0, 100.0, 1.0)
    ensures bars[71] == Bar(71, 100.0, 110.0, 90.0, 101.0, 1.0) && bars[72] == Bar(72, 101.0, 110.0, 90.0, 102.0, 1.0)
    ensures bars[73] == Bar(73, 102.0, 110.0, 90.0, 102.0, 1.0)
  {
    seq(71, k => Bar(k, 100.0, 110.0, 90.0, 100.0, 1.0))
    + [Bar(71, 100.0, 110.0, 90.0, 101.0, 1.0), Bar(72, 101.0, 110.0, 90.0, 102.0, 1.0),
       Bar(73, 102.0, 110.0, 90.0, 102.0, 1.0)]
  }

  lemma DriftFacts()
    ensures var bars := DriftTape();
            && ValidTape(bars) && ValidTape(MirrorBars(1000.0, bars))
            && SlowSleeve.Atr(bars, 72, ATR_PERIOD) == 20.0
            && SlowSleeve.Atr(bars, 72, VR_LONG) == 20.0 && SlowSleeve.Atr(bars, 72, VR_SHORT) == 20.0
            && EmaAt(Closes(bars), 66) == 100.0 && 100.0 < EmaAt(Closes(bars), 72) < 102.0
  {
    hide DriftTape;
    var bars := DriftTape();
    forall j: nat | 1 <= j < 72 ensures TrueRange(bars, j) == 20.0 {
    }
    hide TrueRange, SlowSleeve.Atr;
    SteadyAtr(bars, 72, ATR_PERIOD, 20.0);
    SteadyAtr(bars, 72, VR_LONG, 20.0);
    SteadyAtr(bars, 72, VR_SHORT, 20.0);
    EmaStaysInRange(Closes(bars), 66, 100.0, 100.0);
    EmaStaysInRange(Closes(bars), 70, 100.0, 100.0);
    assert EmaAt(Closes(bars), 71) == 100.0 + 2.0 / 21.0;
  }

  /** Before bar 72 the router finds neither volatility nor drift. */
  lemma DriftQuiet(i: nat)
    requires 70 <= i <= 71
    ensures ValidTape(DriftTape()) && PullbackPlan(DriftTape(), i, true).None?
  {
    DriftFacts();
    hide DriftTape, SlowSleeve.Atr;
    var bars := DriftTape();
    forall j: nat | 1 <= j < i ensures TrueRange(bars, j) == 20.0 {
    }
    hide TrueRange;
    SteadyAtr(bars, i, VR_LONG, 20.0);
    SteadyAtr(bars, i, VR_SHORT, 20.0);
    assert DriftBps(bars, i) == 0.0;
    hide PullbackPlan, DriftBps;
    PullbackParts(bars, i, true);
  }

  lemma DriftTells()
    ensures var bars := DriftTape();
            var m := MirrorBars(1000.0, bars);
            && ValidTape(bars) && ValidTape(m) && !DriftAgrees(1000.0, bars, 72)
            && PullbackPlan(bars, 72, true).Some? && PullbackPlan(m, 72, true).None?
  {
    DriftFacts();
    hide SlowSleeve.Atr, EmaAt, DriftTape;
    var bars := DriftTape();
    var m := MirrorBars(1000.0, bars);
    assert DriftBps(bars, 72) == 100.0;
    hide DriftBps;
    assert PullbackPlan(bars, 72, true).Some?;
    hide PullbackPlan, RegimeAt;
    PullbackSymmetricExactly(1000.0, bars, 72, true);
    PullbackParts(m, 72, true);
    PullbackParts(bars, 72, true);
    ExpandsAlikeExactly(1000.0, bars, 72);
  }

  /** The drift test does tell tapes apart: with the router the pullback sleeve takes
      this bar and passes over its reflection, and the books differ. */
  lemma RouterBreaksSymmetry()
    ensures var bars := DriftTape();
            var m := MirrorBars(1000.0, bars);
            && ValidTape(bars) && ValidTape(m) && FirstBar(PullbackTrend, 0) == 70
            && PullbackPlan(bars, 72, true).Some? && PullbackPlan(m, 72, true).None?
            && !ReflectedBook(1000.0, bars, Book(bars, PullbackTrend, true, 70, -1),
                              Book(m, PullbackTrend, true, 70, -1))
  {
    hide DriftTape, PullbackPlan, ReflectedBook, ValidTape, DriftAgrees;
    var bars := DriftTape();
    DriftTells();
    DriftQuiet(70);
    DriftQuiet(71);
    LaterEntries(bars, PullbackTrend, true, 71, -1);
    assert Book(bars, PullbackTrend, true, 70, -1) == Book(bars, PullbackTrend, true, 72, -1);
    hide Book;
    BookSymmetricExactly(1000.0, bars, PullbackTrend, true, 70, -1);
    assert !Alike(1000.0, bars, PullbackTrend, 72, true);
  }
}
