/** What the slow sleeves do, read off the tape: which bars they enter and how, where the stop
    stands on every bar and when it trails, what the exit price is, and what the trade
    earns. */
module SlowSleeveTape {
  import opened Common
  import opened SlowSleeve

  // ---------- levels on the tape ----------

  /** The best price reached on bars i+1..k. */
  function Best(bars: seq<Bar>, i: nat, k: nat, side: Side): real
    requires i < k < |bars|
  {
    if side == Long then MaxOf(Highs(bars[i + 1..k + 1])) else MinOf(Lows(bars[i + 1..k + 1]))
  }

  /** That price is one and a half risks ahead of the entry. */
  predicate Armed(bars: seq<Bar>, i: nat, k: nat, plan: Plan)
    requires i < k < |bars|
  {
    if plan.side == Long then Best(bars, i, k, Long) >= plan.entry + 1.5 * plan.risk
    else Best(bars, i, k, Short) <= plan.entry - 1.5 * plan.risk
  }

  /** Two average ranges short of it. */
  function Level(bars: seq<Bar>, i: nat, k: nat, side: Side): real
    requires 1 <= i < k < |bars|
  {
    if side == Long then Best(bars, i, k, Long) - 2.0 * Atr(bars, k, 14)
    else Best(bars, i, k, Short) + 2.0 * Atr(bars, k, 14)
  }

  predicate Touches(b: Bar, side: Side, price: real) {
    if side == Long then b.low <= price else b.high >= price
  }

  /** The stop in force on bar j: the most favourable of the initial one and the levels
      of the armed bars before j. */
  ghost predicate StopBefore(bars: seq<Bar>, i: nat, j: nat, plan: Plan, stop: real)
    requires 1 <= i < j <= |bars|
  {
    && AtLeastAsGood(plan.side, stop, plan.stop)
    && (forall k: nat :: i < k < j && Armed(bars, i, k, plan) ==>
          AtLeastAsGood(plan.side, stop, Level(bars, i, k, plan.side)))
    && (stop == plan.stop
        || exists k: nat :: i < k < j && Armed(bars, i, k, plan) && stop == Level(bars, i, k, plan.side))
  }

  /** Leaving at a price earns the move in the position's favour, less 11.8 bps. */
  ghost predicate Earns(plan: Plan, price: real, net: real) {
    (net + 11.8) * plan.entry == (if plan.side == Long then price - plan.entry else plan.entry - price) * 10000.0
  }

  /** No bar from i+1 up to before j touches the stop in force on it. */
  ghost predicate Untouched(bars: seq<Bar>, i: nat, j: nat, plan: Plan)
    requires 1 <= i < j <= |bars|
  {
    forall m: nat :: i < m < j ==>
      && !Touches(bars[m], plan.side, plan.stop)
      && forall k: nat :: i < k < m && Armed(bars, i, k, plan) ==>
           !Touches(bars[m], plan.side, Level(bars, i, k, plan.side))
  }

  /** The exit: the first bar that touches its stop, at that stop; or else the last bar
      of the holding period, at its close. */
  ghost predicate ExitsRight(bars: seq<Bar>, i: nat, plan: Plan, x: Exit)
    requires 1 <= i < |bars|
  {
    var at := i + x.held;
    && i < at < |bars| && x.held <= 48 && Untouched(bars, i, at, plan)
    && match x.reason
       case Stopped =>
         exists stop ::
           StopBefore(bars, i, at, plan, stop) && Touches(bars[at], plan.side, stop) && Earns(plan, stop, x.net)
       case TimedOut =>
         && (at == i + 48 || at == |bars| - 1) && Untouched(bars, i, at + 1, plan)
         && Earns(plan, bars[at].close, x.net)
  }

  // ---------- the exit found by the loop ----------

  /** The running extreme is the entry or the best price so far. */
  ghost predicate Running(bars: seq<Bar>, i: nat, j: nat, plan: Plan, extreme: real)
    requires i < j <= |bars|
  {
    extreme == if j == i + 1 then plan.entry
               else if plan.side == Long then Max(plan.entry, Best(bars, i, j - 1, Long))
               else Min(plan.entry, Best(bars, i, j - 1, Short))
  }

  lemma BestGrows(bars: seq<Bar>, i: nat, k: nat, side: Side)
    requires i < k < |bars|
    ensures Best(bars, i, k, side)
         == if k == i + 1 then (if side == Long then bars[k].high else bars[k].low)
            else if side == Long then Max(Best(bars, i, k - 1, Long), bars[k].high)
            else Min(Best(bars, i, k - 1, Short), bars[k].low)
  {
    var w := bars[i + 1..k + 1];
    assert Highs(w)[..|w| - 1] == Highs(bars[i + 1..k]) && Lows(w)[..|w| - 1] == Lows(bars[i + 1..k]);
  }

  lemma NextRunning(bars: seq<Bar>, i: nat, j: nat, plan: Plan, extreme: real)
    requires i < j < |bars| && Running(bars, i, j, plan, extreme)
    ensures Running(bars, i, j + 1, plan, Extreme(plan.side, extreme, bars[j]))
  {
    hide Best;
    BestGrows(bars, i, j, plan.side);
  }

  /** The loop trails exactly when the bar is armed, and then to its level. */
  lemma TrailsWhenArmed(bars: seq<Bar>, i: nat, j: nat, plan: Plan, best: real, stop: real)
    requires 1 <= i < j < |bars| && SoundPlan(plan) && Running(bars, i, j + 1, plan, best)
    ensures NextStop(bars, j, plan, best, stop)
         == if Armed(bars, i, j, plan) then Ratchet(plan.side, stop, Level(bars, i, j, plan.side)) else stop
  {
    hide Atr, Best;
  }

  lemma NextStopBefore(bars: seq<Bar>, i: nat, j: nat, plan: Plan, best: real, stop: real)
    requires 1 <= i < j < |bars| && SoundPlan(plan) && Running(bars, i, j + 1, plan, best)
    requires StopBefore(bars, i, j, plan, stop)
    ensures StopBefore(bars, i, j + 1, plan, NextStop(bars, j, plan, best, stop))
  {
    TrailsWhenArmed(bars, i, j, plan, best, stop);
    hide Armed, Level, NextStop;
  }

  lemma MissesAll(bars: seq<Bar>, i: nat, j: nat, plan: Plan, stop: real)
    requires 1 <= i < j < |bars| && StopBefore(bars, i, j, plan, stop) && Untouched(bars, i, j, plan)
    requires !Touches(bars[j], plan.side, stop)
    ensures Untouched(bars, i, j + 1, plan)
  {
    hide Armed, Level;
  }

  lemma NetEarns(plan: Plan, price: real)
    requires SoundPlan(plan)
    ensures Earns(plan, price, NetBps(plan.side, plan.entry, price))
  {
    var q := price / plan.entry;
    assert q * plan.entry == price;
    if plan.side == Long {
      assert (q - 1.0) * 10000.0 * plan.entry == (price - plan.entry) * 10000.0;
    } else {
      assert (1.0 - q) * 10000.0 * plan.entry == (plan.entry - price) * 10000.0;
    }
  }

  lemma {:induction false} ExitFromRight(bars: seq<Bar>, i: nat, j: nat, plan: Plan, extreme: real, stop: real)
    requires 1 <= i < |bars| - 1 && i < j <= Horizon(bars, i) + 1 && SoundPlan(plan)
    requires Running(bars, i, j, plan, extreme) && StopBefore(bars, i, j, plan, stop) && Untouched(bars, i, j, plan)
    ensures ExitsRight(bars, i, plan, ExitFrom(bars, i, j, plan, extreme, stop))
    decreases |bars| - j
  {
    hide Running, StopBefore, Untouched, Earns, NextStop, NetBps, SoundPlan;
    SoundEntry(plan);
    if j > Horizon(bars, i) {
      NetEarns(plan, bars[Horizon(bars, i)].close);
      UntouchedEarlier(bars, i, j, plan);
    } else if Hit(plan.side, bars[j], stop) {
      NetEarns(plan, stop);
    } else {
      var best := Extreme(plan.side, extreme, bars[j]);
      NextRunning(bars, i, j, plan, extreme);
      NextStopBefore(bars, i, j, plan, best, stop);
      MissesAll(bars, i, j, plan, stop);
      ExitFromRight(bars, i, j + 1, plan, best, NextStop(bars, j, plan, best, stop));
    }
  }

  lemma SoundEntry(plan: Plan)
    requires SoundPlan(plan)
    ensures plan.entry > 0.0
  {
  }

  lemma UntouchedEarlier(bars: seq<Bar>, i: nat, j: nat, plan: Plan)
    requires 1 <= i < j - 1 && j <= |bars| && Untouched(bars, i, j, plan)
    ensures Untouched(bars, i, j - 1, plan)
  {
    hide Armed, Level;
  }

  /** Every exit is the one the tape calls for. */
  lemma ExitOnTape(bars: seq<Bar>, i: nat, plan: Plan)
    requires 1 <= i < |bars| - 1 && SoundPlan(plan)
    ensures ExitsRight(bars, i, plan, ExitOf(bars, i, plan))
  {
    hide ExitFrom, ExitsRight;
    ExitFromRight(bars, i, i + 1, plan, plan.entry, plan.stop);
  }

  // ---------- the router on the tape ----------

  /** Six-bar ranges at least two and a half times the forty-eight-bar ones. */
  ghost predicate Stressed(bars: seq<Bar>, i: nat)
    requires i <= |bars|
  {
    i >= 50 && Atr(bars, i, 48) > 0.0 && Atr(bars, i, 6) >= 2.5 * Atr(bars, i, 48)
  }

  /** Short of stress: ranges a tenth wider than usual, or a close that has drifted
      eighty basis points in a day. */
  ghost predicate Expanding(bars: seq<Bar>, i: nat)
    requires i <= |bars|
  {
    && i >= 50 && Atr(bars, i, 48) > 0.0 && Atr(bars, i, 6) < 2.5 * Atr(bars, i, 48)
    && (|| Atr(bars, i, 6) >= 1.1 * Atr(bars, i, 48)
        || Abs(bars[i - 1].close - bars[i - 25].close) * 10000.0 >= 80.0 * bars[i - 25].close)
  }

  lemma RatioAtLeast(x: real, y: real, r: real)
    requires y > 0.0
    ensures x / y >= r <==> x >= r * y
  {
    var q := x / y;
    assert q * y == x;
    if q >= r {
      assert q * y >= r * y;
    } else {
      assert q * y < r * y;
    }
  }

  lemma DriftAtLeast(from: real, to: real)
    requires from > 0.0
    ensures Abs(to / from - 1.0) * 10000.0 >= 80.0 <==> Abs(to - from) * 10000.0 >= 80.0 * from
  {
    RatioAtLeast(to, from, 1.008);
    RatioAtLeast(to, from, 0.992);
    RatioAtLeast(-to, from, -0.992);
    assert (-to) / from == -(to / from);
  }

  lemma RegimeOnTape(bars: seq<Bar>, i: nat)
    requires i <= |bars| && ValidTape(bars)
    ensures RegimeAt(bars, i) == Stress <==> Stressed(bars, i)
    ensures RegimeAt(bars, i) == Expand <==> Expanding(bars, i)
  {
    hide Atr;
    if i >= 50 {
      assert ValidBar(bars[i - 25]);
      DriftAtLeast(bars[i - 25].close, bars[i - 1].close);
      if Atr(bars, i, 48) > 0.0 {
        RatioAtLeast(Atr(bars, i, 6), Atr(bars, i, 48), 2.5);
        RatioAtLeast(Atr(bars, i, 6), Atr(bars, i, 48), 1.1);
      }
    }
  }

  // ---------- setups on the tape ----------

  /** Twice the volume of the twenty-four bars before. */
  ghost predicate Loud(bars: seq<Bar>, i: nat)
    requires 24 <= i < |bars|
  {
    bars[i].volume * 24.0 >= 2.0 * Sum(Volumes(bars[i - 24..i])) > 0.0
  }

  /** A low under all of the twelve bars before, and a close back above one of them. */
  ghost predicate Dips(bars: seq<Bar>, i: nat)
    requires 12 <= i < |bars|
  {
    && (forall k :: i - 12 <= k < i ==> bars[i].low < bars[k].low)
    && exists k :: i - 12 <= k < i && bars[k].low < bars[i].close
  }

  ghost predicate Pops(bars: seq<Bar>, i: nat)
    requires 12 <= i < |bars|
  {
    && (forall k :: i - 12 <= k < i ==> bars[i].high > bars[k].high)
    && exists k :: i - 12 <= k < i && bars[k].high > bars[i].close
  }

  /** Enter at the close, with the stop half an average range beyond the bar. */
  ghost predicate EntersAt(bars: seq<Bar>, i: nat, plan: Plan, side: Side)
    requires 2 <= i < |bars|
  {
    && plan.side == side && plan.entry == bars[i].close
    && plan.stop == (if side == Long then bars[i].low - 0.5 * Atr(bars, i, 14)
                     else bars[i].high + 0.5 * Atr(bars, i, 14))
    && plan.risk == if side == Long then plan.entry - plan.stop else plan.stop - plan.entry
  }

  lemma WindowOnTape(bars: seq<Bar>, i: nat, x: real)
    requires 12 <= i <= |bars|
    ensures x < PriorLow(bars, i) <==> forall k :: i - 12 <= k < i ==> x < bars[k].low
    ensures PriorLow(bars, i) < x <==> exists k :: i - 12 <= k < i && bars[k].low < x
    ensures x > PriorHigh(bars, i) <==> forall k :: i - 12 <= k < i ==> x > bars[k].high
    ensures PriorHigh(bars, i) > x <==> exists k :: i - 12 <= k < i && bars[k].high > x
  {
    var w := bars[i - 12..i];
    var l :| 0 <= l < 12 && Lows(w)[l] == PriorLow(bars, i);
    var h :| 0 <= h < 12 && Highs(w)[h] == PriorHigh(bars, i);
    assert bars[i - 12 + l].low == PriorLow(bars, i) && bars[i - 12 + h].high == PriorHigh(bars, i);
    assert forall k :: i - 12 <= k < i ==>
      Lows(w)[k - (i - 12)] == bars[k].low && Highs(w)[k - (i - 12)] == bars[k].high;
    hide MinOf, MaxOf;
  }

  lemma LoudExactly(bars: seq<Bar>, i: nat)
    requires 24 <= i < |bars|
    ensures Loud(bars, i) <==> VolumeMean(bars, i) > 0.0 && bars[i].volume >= FLUSH_VOL_MULT * VolumeMean(bars, i)
  {
    hide Sum;
    var total := Sum(Volumes(bars[i - 24..i]));
    assert VolumeMean(bars, i) == total / 24.0;
  }

  /** The flush sleeve enters exactly the loud bars that dip or pop and come back, on a
      tape that moves, and off stress when routed; a bar that does both is a long. */
  lemma FlushOnTape(bars: seq<Bar>, i: nat, router: bool)
    requires 24 <= i < |bars| && ValidTape(bars)
    ensures var plan := FlushPlan(bars, i, router);
            && (plan.Some? <==> && !(router && Stressed(bars, i)) && Atr(bars, i, 14) > 0.0 && Loud(bars, i)
                                && (Dips(bars, i) || Pops(bars, i)))
            && (plan.Some? ==> EntersAt(bars, i, plan.value, if Dips(bars, i) then Long else Short))
  {
    RegimeOnTape(bars, i);
    LoudExactly(bars, i);
    WindowOnTape(bars, i, bars[i].low);
    WindowOnTape(bars, i, bars[i].high);
    WindowOnTape(bars, i, bars[i].close);
    assert ValidBar(bars[i]);
    hide Atr, RegimeAt, VolumeMean, PriorLow, PriorHigh, Stressed, Loud;
  }

  /** The average, over six bars up and touched from above, or the reverse. */
  ghost predicate Touched(bars: seq<Bar>, i: nat, side: Side)
    requires 6 <= i < |bars|
  {
    var now, back := EmaAt(Closes(bars), i), EmaAt(Closes(bars), i - 6);
    if side == Long then now > back && bars[i].low <= now < bars[i].close
    else now < back && bars[i].high >= now > bars[i].close
  }

  lemma PullbackOnTape(bars: seq<Bar>, i: nat, router: bool)
    requires 7 <= i < |bars| && ValidTape(bars)
    ensures var plan := PullbackPlan(bars, i, router);
            && (plan.Some? <==> && (router ==> Expanding(bars, i)) && Atr(bars, i, 14) > 0.0
                                && (Touched(bars, i, Long) || Touched(bars, i, Short)))
            && (plan.Some? ==> EntersAt(bars, i, plan.value, if Touched(bars, i, Long) then Long else Short))
  {
    RegimeOnTape(bars, i);
    assert ValidBar(bars[i]);
    hide Atr, RegimeAt, EmaAt, Expanding;
  }

  // ---------- books on the tape ----------

  ghost predicate EntersOnTape(bars: seq<Bar>, sleeve: Sleeve, router: bool, i: nat, plan: Plan)
    requires 24 <= i < |bars|
  {
    && Atr(bars, i, 14) > 0.0
    && match sleeve
       case FlushReclaim =>
         && !(router && Stressed(bars, i)) && Loud(bars, i) && (Dips(bars, i) || Pops(bars, i))
         && EntersAt(bars, i, plan, if Dips(bars, i) then Long else Short)
       case PullbackTrend =>
         && (router ==> Expanding(bars, i)) && (Touched(bars, i, Long) || Touched(bars, i, Short))
         && EntersAt(bars, i, plan, if Touched(bars, i, Long) then Long else Short)
  }

  /** Every booked trade entered on a bar of its sleeve's kind and left as the tape calls for. */
  ghost predicate TradeOnTape(bars: seq<Bar>, router: bool, t: Trade, plan: Plan) {
    && 24 <= t.at < |bars| - 1 && EntersOnTape(bars, t.sleeve, router, t.at, plan)
    && t.side == plan.side && t.ts == bars[t.at].ts
    && ExitsRight(bars, t.at, plan, Exit(t.net, t.reason, t.held))
  }

  lemma BookOnTape(bars: seq<Bar>, sleeve: Sleeve, router: bool, start: nat, t: Trade)
    requires ValidTape(bars) && t in Book(bars, sleeve, router, FirstBar(sleeve, start), -1)
    ensures exists plan :: TradeOnTape(bars, router, t, plan)
  {
    OnePositionAtATime(bars, sleeve, router, FirstBar(sleeve, start), -1);
    EntryAfterWarmUp(bars, sleeve, router, start, t);
    hide Book, ExitOf, ExitsRight, WithinRisk, FlushPlan, PullbackPlan, EntersAt, Touched, Dips, Pops, Loud, Expanding,
      Stressed, Atr;
    var plan := Setup(bars, t.sleeve, t.at, router).value;
    FlushOnTape(bars, t.at, router);
    PullbackOnTape(bars, t.at, router);
    ExitOnTape(bars, t.at, plan);
    assert TradeOnTape(bars, router, t, plan);
  }

  lemma EntryAfterWarmUp(bars: seq<Bar>, sleeve: Sleeve, router: bool, start: nat, t: Trade)
    requires ValidTape(bars) && t in Book(bars, sleeve, router, FirstBar(sleeve, start), -1)
    ensures t.at >= FirstBar(sleeve, start) >= 62
  {
    hide Book, Faithful;
    OnePositionAtATime(bars, sleeve, router, FirstBar(sleeve, start), -1);
  }

  /** The first bar looked at is the start asked for, or the end of the warm-up. */
  lemma WarmUps(start: nat)
    ensures FirstBar(FlushReclaim, start) == if start >= 62 then start else 62
    ensures FirstBar(PullbackTrend, start) == if start >= 70 then start else 70
  {
  }
}
