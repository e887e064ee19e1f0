/** From a book of trades in basis points to an account path, and its ruin over
    all orderings of the same trades. */
module AccountPath {
  import opened Common

  /** A trade's net result in basis points and its stop distance as a fraction. */
  datatype Trade = Trade(bps: real, stop: real)

  /** Fixed leverage (none counts as zero) or risk per trade with a notional cap. */
  datatype Sizing = Fixed(leverage: Option<real>) | Risk(pct: real, cap: real)

  datatype Result = Result(equity: real, maxDd: real, worst: real, ruined: bool)

  function Notional(margin: real, sizing: Sizing, equity: real, stop: real): real {
    match sizing
    case Fixed(leverage) => margin * (if leverage.Some? then leverage.value else 0.0)
    case Risk(pct, cap) => if stop > 0.0 then Min(equity * pct / stop, equity * cap) else 0.0
  }

  function Pnl(margin: real, sizing: Sizing, equity: real, t: Trade): real {
    t.bps * Notional(margin, sizing, equity, t.stop) / 10000.0
  }

  /** Equity after the first k trades when nothing stops the walk. */
  function Equity(rows: seq<Trade>, margin: real, sizing: Sizing, k: nat): real
    requires k <= |rows|
  {
    if k == 0 then margin
    else
      var before := Equity(rows, margin, sizing, k - 1);
      before + Pnl(margin, sizing, before, rows[k - 1])
  }

  ghost predicate Ruined(rows: seq<Trade>, margin: real, sizing: Sizing) {
    exists k :: 1 <= k <= |rows| && Equity(rows, margin, sizing, k) <= 0.0
  }

  /** The deepest drop of the path between two of its first n + 1 points. */
  ghost predicate DeepestDrop(rows: seq<Trade>, margin: real, sizing: Sizing, n: nat, dd: real)
    requires n <= |rows|
  {
    && (forall i, j :: 0 <= i <= j <= n ==> dd <= Equity(rows, margin, sizing, j) - Equity(rows, margin, sizing, i))
    && (exists i, j :: 0 <= i <= j <= n && dd == Equity(rows, margin, sizing, j) - Equity(rows, margin, sizing, i))
  }

  /** The worst single result of the first n trades, or zero. */
  ghost predicate WorstTrade(rows: seq<Trade>, margin: real, sizing: Sizing, n: nat, worst: real)
    requires n <= |rows|
  {
    && worst <= 0.0
    && (forall k :: 0 <= k < n ==> worst <= Pnl(margin, sizing, Equity(rows, margin, sizing, k), rows[k]))
    && (worst == 0.0 || exists k ::
          0 <= k < n && worst == Pnl(margin, sizing, Equity(rows, margin, sizing, k), rows[k]))
  }

  /** Size is fixed on the margin, or takes the risk share of the equity over the stop,
      capped; each trade moves the equity by its basis points of that. */
  lemma EachTradeMoves(rows: seq<Trade>, margin: real, sizing: Sizing, k: nat)
    requires k < |rows|
    ensures exists size ::
              && 10000.0 * (Equity(rows, margin, sizing, k + 1) - Equity(rows, margin, sizing, k)) == rows[k].bps * size
              && Sized(rows[k], margin, sizing, Equity(rows, margin, sizing, k), size)
  {
    var e := Equity(rows, margin, sizing, k);
    var size := Notional(margin, sizing, e, rows[k].stop);
    hide Equity;
    assert Equity(rows, margin, sizing, k + 1) == e + Pnl(margin, sizing, e, rows[k]) by {
      NextEquity(rows, margin, sizing, k);
    }
    SizedRight(rows[k], margin, sizing, e);
    hide Notional;
  }

  lemma NextEquity(rows: seq<Trade>, margin: real, sizing: Sizing, k: nat)
    requires k < |rows|
    ensures Equity(rows, margin, sizing, 0) == margin
    ensures Equity(rows, margin, sizing, k + 1)
         == Equity(rows, margin, sizing, k) + Pnl(margin, sizing, Equity(rows, margin, sizing, k), rows[k])
  {
    hide Pnl;
  }

  ghost predicate Sized(t: Trade, margin: real, sizing: Sizing, equity: real, size: real) {
    match sizing
    case Fixed(leverage) => size == if leverage.None? then 0.0 else margin * leverage.value
    case Risk(pct, cap) =>
      if t.stop <= 0.0 then size == 0.0
      else
        && size * t.stop <= equity * pct && size <= equity * cap
        && (size * t.stop == equity * pct || size == equity * cap)
  }

  lemma SizedRight(t: Trade, margin: real, sizing: Sizing, equity: real)
    ensures Sized(t, margin, sizing, equity, Notional(margin, sizing, equity, t.stop))
  {
    match sizing {
      case Fixed(leverage) =>
      case Risk(pct, cap) =>
        if t.stop > 0.0 {
          Capped(equity * pct, equity * cap, t.stop);
        }
    }
  }

  lemma Capped(risked: real, most: real, stop: real)
    requires stop > 0.0
    ensures var size := Min(risked / stop, most);
            size * stop <= risked && size <= most && (size * stop == risked || size == most)
  {
    var q := risked / stop;
    assert q * stop == risked;
    if most < q {
      assert most * stop <= q * stop;
    }
  }

  /** The walk stops at the first point at or below zero and reports a zero
      equity; its drawdown then covers the path before that point. */
  method Walk(rows: seq<Trade>, margin: real, sizing: Sizing) returns (r: Result, ghost n: nat)
    ensures r.ruined <==> Ruined(rows, margin, sizing)
    ensures n <= |rows| && (r.ruined ==> n < |rows| && Equity(rows, margin, sizing, n + 1) <= 0.0)
    ensures forall k :: 1 <= k <= n ==> Equity(rows, margin, sizing, k) > 0.0
    ensures !r.ruined ==> n == |rows|
    ensures r.equity == Reported(rows, margin, sizing)
    ensures DeepestDrop(rows, margin, sizing, n, r.maxDd)
    ensures WorstTrade(rows, margin, sizing, if r.ruined then n + 1 else n, r.worst)
  {
    hide Pnl, DeepestDrop, WorstTrade, Ruined;
    NoDropYet(rows, margin, sizing);
    var equity, peak, maxDd, worst := margin, margin, 0.0, 0.0;
    n := 0;
    ghost var top := 0;
    for i := 0 to |rows|
      invariant n == i && equity == Equity(rows, margin, sizing, i)
      invariant forall k :: 1 <= k <= i ==> Equity(rows, margin, sizing, k) > 0.0
      invariant 0 <= top <= i && peak == Equity(rows, margin, sizing, top)
      invariant forall k :: 0 <= k <= i ==> Equity(rows, margin, sizing, k) <= peak
      invariant DeepestDrop(rows, margin, sizing, i, maxDd)
      invariant WorstTrade(rows, margin, sizing, i, worst)
    {
      var pnl := Pnl(margin, sizing, equity, rows[i]);
      WorstStep(rows, margin, sizing, i, worst, pnl);
      worst := Min(worst, pnl);
      equity := equity + pnl;
      assert equity == Equity(rows, margin, sizing, i + 1);
      if equity <= 0.0 {
        RuinedAt(rows, margin, sizing, i + 1);
        return Result(0.0, maxDd, worst, true), i;
      }
      if equity > peak {
        top := i + 1;
      }
      peak := Max(peak, equity);
      DropStep(rows, margin, sizing, i, maxDd, top);
      maxDd := Min(maxDd, equity - peak);
      n := i + 1;
    }
    r := Result(equity, maxDd, worst, false);
    NeverRuined(rows, margin, sizing);
  }

  lemma RuinedAt(rows: seq<Trade>, margin: real, sizing: Sizing, k: nat)
    requires 1 <= k <= |rows| && Equity(rows, margin, sizing, k) <= 0.0
    ensures Ruined(rows, margin, sizing)
  {
  }

  lemma NeverRuined(rows: seq<Trade>, margin: real, sizing: Sizing)
    requires forall k :: 1 <= k <= |rows| ==> Equity(rows, margin, sizing, k) > 0.0
    ensures !Ruined(rows, margin, sizing)
  {
  }

  lemma NoDropYet(rows: seq<Trade>, margin: real, sizing: Sizing)
    ensures DeepestDrop(rows, margin, sizing, 0, 0.0) && WorstTrade(rows, margin, sizing, 0, 0.0)
  {
    hide Equity, Pnl;
    assert DeepestDrop(rows, margin, sizing, 0, 0.0) by {
      var start := Equity(rows, margin, sizing, 0);
      assert forall i, j :: 0 <= i <= j <= 0 ==>
        0.0 <= Equity(rows, margin, sizing, j) - Equity(rows, margin, sizing, i);
      assert 0.0 == start - start;
    }
    assert WorstTrade(rows, margin, sizing, 0, 0.0);
  }

  lemma WorstStep(rows: seq<Trade>, margin: real, sizing: Sizing, i: nat, worst: real, pnl: real)
    requires i < |rows| && WorstTrade(rows, margin, sizing, i, worst)
    requires pnl == Pnl(margin, sizing, Equity(rows, margin, sizing, i), rows[i])
    ensures WorstTrade(rows, margin, sizing, i + 1, Min(worst, pnl))
  {
    hide Pnl, Equity;
  }

  lemma DropStep(rows: seq<Trade>, margin: real, sizing: Sizing, i: nat, dd: real, top: nat)
    requires i < |rows| && DeepestDrop(rows, margin, sizing, i, dd) && top <= i + 1
    requires forall k :: 0 <= k <= i + 1 ==> Equity(rows, margin, sizing, k) <= Equity(rows, margin, sizing, top)
    ensures DeepestDrop(rows, margin, sizing, i + 1,
                        Min(dd, Equity(rows, margin, sizing, i + 1) - Equity(rows, margin, sizing, top)))
  {
    hide Equity;
  }

  /** The equity a walk reports. */
  ghost function Reported(rows: seq<Trade>, margin: real, sizing: Sizing): real {
    if Ruined(rows, margin, sizing) then 0.0 else Equity(rows, margin, sizing, |rows|)
  }

  // ---------- fixed leverage ----------

  function SumBps(rows: seq<Trade>): real {
    if rows == [] then 0.0 else SumBps(rows[..|rows| - 1]) + rows[|rows| - 1].bps
  }

  /** Account currency per basis point under fixed leverage. */
  function PerBp(margin: real, leverage: Option<real>): real {
    margin * (if leverage.Some? then leverage.value else 0.0) / 10000.0
  }

  lemma {:induction false} FixedEquity(rows: seq<Trade>, margin: real, leverage: Option<real>, k: nat)
    requires k <= |rows|
    ensures Equity(rows, margin, Fixed(leverage), k) == margin + PerBp(margin, leverage) * SumBps(rows[..k])
  {
    if k > 0 {
      FixedEquity(rows, margin, leverage, k - 1);
      assert rows[..k][..k - 1] == rows[..k - 1];
      var c, a, b := PerBp(margin, leverage), SumBps(rows[..k - 1]), rows[k - 1].bps;
      FixedPnl(margin, leverage, Equity(rows, margin, Fixed(leverage), k - 1), rows[k - 1]);
      assert c * (a + b) == c * a + c * b;
      hide Pnl, PerBp;
    }
  }

  lemma FixedPnl(margin: real, leverage: Option<real>, equity: real, t: Trade)
    ensures Pnl(margin, Fixed(leverage), equity, t) == PerBp(margin, leverage) * t.bps
  {
    var x := Notional(margin, Fixed(leverage), equity, t.stop);
    assert t.bps * x / 10000.0 == x / 10000.0 * t.bps;
  }

  lemma {:induction false} SumBpsAppend(a: seq<Trade>, b: seq<Trade>)
    ensures SumBps(a + b) == SumBps(a) + SumBps(b)
  {
    if b == [] {
      assert a + b == a;
    } else {
      assert (a + b)[..|a + b| - 1] == a + b[..|b| - 1];
      SumBpsAppend(a, b[..|b| - 1]);
    }
  }

  function Without(rows: seq<Trade>, k: nat): seq<Trade>
    requires k < |rows|
  {
    rows[..k] + rows[k + 1..]
  }

  /** The last trade of one ordering, taken out of another, leaves orderings of the rest. */
  lemma TakeOut(a: seq<Trade>, b: seq<Trade>) returns (k: nat)
    requires a != [] && multiset(a) == multiset(b)
    ensures k < |b| && b[k] == a[|a| - 1]
    ensures multiset(a[..|a| - 1]) == multiset(Without(b, k))
  {
    var init, t := a[..|a| - 1], a[|a| - 1];
    LastIsOne(a);
    assert t in multiset(b);
    k :| 0 <= k < |b| && b[k] == t;
    WithoutOne(b, k);
    hide Without;
    assert multiset(init) == multiset(a) - multiset{t};
    assert multiset(Without(b, k)) == multiset(b) - multiset{t};
  }

  lemma LastIsOne(a: seq<Trade>)
    requires a != []
    ensures multiset(a) == multiset(a[..|a| - 1]) + multiset{a[|a| - 1]}
  {
    assert a == a[..|a| - 1] + [a[|a| - 1]];
  }

  lemma WithoutOne(b: seq<Trade>, k: nat)
    requires k < |b|
    ensures multiset(b) == multiset(Without(b, k)) + multiset{b[k]}
  {
    assert b == b[..k] + [b[k]] + b[k + 1..];
  }

  lemma NoTrades(a: seq<Trade>, b: seq<Trade>)
    requires a == [] && multiset(a) == multiset(b)
    ensures b == []
  {
    assert |multiset(b)| == 0;
  }

  lemma SumWithout(rows: seq<Trade>, k: nat)
    requires k < |rows|
    ensures SumBps(rows) == SumBps(Without(rows, k)) + rows[k].bps
  {
    hide SumBps;
    SumBpsAppend(rows[..k], rows[k + 1..]);
    SumBpsAppend(rows[..k], [rows[k]]);
    SumBpsAppend(rows[..k] + [rows[k]], rows[k + 1..]);
    SumOfOne(rows[k]);
    assert rows == rows[..k] + [rows[k]] + rows[k + 1..];
  }

  lemma {:induction false} SumBpsOrderFree(a: seq<Trade>, b: seq<Trade>)
    requires multiset(a) == multiset(b)
    ensures SumBps(a) == SumBps(b)
    decreases |a|
  {
    hide Without;
    if a == [] {
      NoTrades(a, b);
    } else {
      var k := TakeOut(a, b);
      SumBpsOrderFree(a[..|a| - 1], Without(b, k));
      SumWithout(b, k);
    }
  }

  /** The final equity of any two unruined orderings is the same. */
  lemma FinalEquityOrderFree(a: seq<Trade>, b: seq<Trade>, margin: real, leverage: Option<real>)
    requires multiset(a) == multiset(b)
    ensures Equity(a, margin, Fixed(leverage), |a|) == Equity(b, margin, Fixed(leverage), |b|)
  {
    hide Equity, PerBp, SumBps;
    FixedEquity(a, margin, leverage, |a|);
    FixedEquity(b, margin, leverage, |b|);
    assert a[..|a|] == a && b[..|b|] == b;
    SumBpsOrderFree(a, b);
  }

  /** The losing trades' sum, as a nonpositive number. */
  function LossBps(rows: seq<Trade>): (s: real)
    ensures s <= 0.0
  {
    if rows == [] then 0.0 else LossBps(rows[..|rows| - 1]) + Min(rows[|rows| - 1].bps, 0.0)
  }

  lemma {:induction false} LossAppend(a: seq<Trade>, b: seq<Trade>)
    ensures LossBps(a + b) == LossBps(a) + LossBps(b)
  {
    if b == [] {
      assert a + b == a;
    } else {
      assert (a + b)[..|a + b| - 1] == a + b[..|b| - 1];
      LossAppend(a, b[..|b| - 1]);
    }
  }

  lemma {:induction false} LossBelowSum(rows: seq<Trade>)
    ensures LossBps(rows) <= SumBps(rows)
  {
    if rows != [] {
      LossBelowSum(rows[..|rows| - 1]);
    }
  }

  lemma PrefixAboveLoss(rows: seq<Trade>, k: nat)
    requires k <= |rows|
    ensures LossBps(rows) <= SumBps(rows[..k])
  {
    assert rows == rows[..k] + rows[k..];
    LossAppend(rows[..k], rows[k..]);
    LossBelowSum(rows[..k]);
  }

  lemma LossWithout(rows: seq<Trade>, k: nat)
    requires k < |rows|
    ensures LossBps(rows) == LossBps(Without(rows, k)) + Min(rows[k].bps, 0.0)
  {
    hide LossBps, Min;
    LossOfOne(rows[k]);
    LossAppend(rows[..k], rows[k + 1..]);
    LossAppend(rows[..k], [rows[k]]);
    LossAppend(rows[..k] + [rows[k]], rows[k + 1..]);
    assert rows == rows[..k] + [rows[k]] + rows[k + 1..];
  }

  lemma LossOfOne(t: Trade)
    ensures LossBps([t]) == Min(t.bps, 0.0)
  {
    assert [t][..0] == [];
  }

  lemma {:induction false} LossOrderFree(a: seq<Trade>, b: seq<Trade>)
    requires multiset(a) == multiset(b)
    ensures LossBps(a) == LossBps(b)
    decreases |a|
  {
    hide Without;
    if a == [] {
      NoTrades(a, b);
    } else {
      var k := TakeOut(a, b);
      LossOrderFree(a[..|a| - 1], Without(b, k));
      LossWithout(b, k);
    }
  }

  // ---------- losses first, gains first ----------

  function Pick(rows: seq<Trade>, losing: bool): (r: seq<Trade>)
    ensures forall t :: t in r ==> t in rows && (t.bps < 0.0 <==> losing)
  {
    if rows == [] then []
    else
      Pick(rows[..|rows| - 1], losing) + (if (rows[|rows| - 1].bps < 0.0) == losing then [rows[|rows| - 1]] else [])
  }

  ghost predicate Splits(a: seq<Trade>, b: seq<Trade>, all: seq<Trade>) {
    multiset(a) + multiset(b) == multiset(all)
  }

  lemma {:induction false} PickSplits(rows: seq<Trade>)
    ensures Splits(Pick(rows, true), Pick(rows, false), rows)
  {
    hide Splits;
    if rows == [] {
      NothingSplits();
    } else {
      hide Pick;
      var init, t := rows[..|rows| - 1], rows[|rows| - 1];
      PickSplits(init);
      PickLast(rows);
      AddOne(Pick(init, true), Pick(init, false), init, t);
      assert rows == init + [t];
    }
  }

  lemma {:induction false} PickedLosses(rows: seq<Trade>)
    ensures SumBps(Pick(rows, true)) == LossBps(rows)
  {
    if rows != [] {
      var init, t := rows[..|rows| - 1], rows[|rows| - 1];
      PickedLosses(init);
      PickLast(rows);
      hide Pick, SumBps;
      SumBpsAppend(Pick(init, true), [t]);
      SumOfOne(t);
    }
  }

  lemma NothingSplits()
    ensures Splits([], [], [])
  {
  }

  lemma PickLast(rows: seq<Trade>)
    requires rows != []
    ensures var init, t := rows[..|rows| - 1], rows[|rows| - 1];
      if t.bps < 0.0 then Pick(rows, true) == Pick(init, true) + [t] && Pick(rows, false) == Pick(init, false)
      else Pick(rows, true) == Pick(init, true) && Pick(rows, false) == Pick(init, false) + [t]
  {
    var init := rows[..|rows| - 1];
    assert Pick(init, true) + [] == Pick(init, true) && Pick(init, false) + [] == Pick(init, false);
  }

  lemma AddOne(a: seq<Trade>, b: seq<Trade>, all: seq<Trade>, t: Trade)
    requires Splits(a, b, all)
    ensures Splits(a + [t], b, all + [t]) && Splits(a, b + [t], all + [t])
  {
  }

  lemma SumOfOne(t: Trade)
    ensures SumBps([t]) == t.bps
  {
    assert [t][..0] == [];
  }

  /** The ordering that takes all losses first. */
  function LossesFirst(rows: seq<Trade>): (r: seq<Trade>)
    ensures multiset(r) == multiset(rows) && |r| == |rows|
  {
    PickSplits(rows);
    assert |multiset(Pick(rows, true) + Pick(rows, false))| == |multiset(rows)|;
    Pick(rows, true) + Pick(rows, false)
  }

  function GainsFirst(rows: seq<Trade>): (r: seq<Trade>)
    ensures multiset(r) == multiset(rows) && |r| == |rows|
  {
    PickSplits(rows);
    assert |multiset(Pick(rows, false) + Pick(rows, true))| == |multiset(rows)|;
    Pick(rows, false) + Pick(rows, true)
  }

  /** Some ordering is ruined exactly when the losses alone use up the margin. */
  lemma SomeOrderRuins(rows: seq<Trade>, margin: real, leverage: Option<real>)
    requires margin > 0.0 && (leverage.Some? ==> leverage.value >= 0.0)
    ensures (exists order :: multiset(order) == multiset(rows) && Ruined(order, margin, Fixed(leverage)))
       <==> margin + PerBp(margin, leverage) * LossBps(rows) <= 0.0
  {
    hide Equity, PerBp, SumBps, LossBps;
    var c := PerBp(margin, leverage);
    PerBpNonNegative(margin, leverage);
    forall order | multiset(order) == multiset(rows) && Ruined(order, margin, Fixed(leverage))
      ensures margin + c * LossBps(rows) <= 0.0
    {
      var k :| 1 <= k <= |order| && Equity(order, margin, Fixed(leverage), k) <= 0.0;
      FixedEquity(order, margin, leverage, k);
      PrefixAboveLoss(order, k);
      LossOrderFree(order, rows);
      Monotone(c, LossBps(rows), SumBps(order[..k]));
    }
    if margin + c * LossBps(rows) <= 0.0 {
      LossesFirstRuins(rows, margin, leverage);
    }
  }

  lemma PerBpNonNegative(margin: real, leverage: Option<real>)
    requires margin > 0.0 && (leverage.Some? ==> leverage.value >= 0.0)
    ensures PerBp(margin, leverage) >= 0.0
  {
  }

  lemma Monotone(c: real, a: real, b: real)
    requires c >= 0.0 && a <= b
    ensures c * a <= c * b
  {
  }

  lemma NoLosses(margin: real, leverage: Option<real>, losses: seq<Trade>, rows: seq<Trade>)
    requires margin > 0.0 && SumBps(losses) == LossBps(rows)
    requires margin + PerBp(margin, leverage) * LossBps(rows) <= 0.0
    ensures losses != []
  {
    hide PerBp, LossBps;
    NotZero(PerBp(margin, leverage), LossBps(rows), margin);
  }

  lemma NotZero(c: real, x: real, margin: real)
    requires margin > 0.0 && margin + c * x <= 0.0
    ensures x != 0.0
  {
  }

  lemma LossesFirstRuins(rows: seq<Trade>, margin: real, leverage: Option<real>)
    requires margin > 0.0 && margin + PerBp(margin, leverage) * LossBps(rows) <= 0.0
    ensures Ruined(LossesFirst(rows), margin, Fixed(leverage))
  {
    hide Equity, PerBp, SumBps, LossBps, Pick;
    var order, losses := LossesFirst(rows), Pick(rows, true);
    PickedLosses(rows);
    assert order[..|losses|] == losses;
    FixedEquity(order, margin, leverage, |losses|);
    assert losses != [] by { NoLosses(margin, leverage, losses, rows); }
    assert Equity(order, margin, Fixed(leverage), |losses|) <= 0.0;
  }

  /** An ordering with bps ascending is ruined if any ordering is. */
  lemma AscendingIsWorst(ascending: seq<Trade>, order: seq<Trade>, margin: real, leverage: Option<real>)
    requires margin > 0.0 && (leverage.Some? ==> leverage.value >= 0.0)
    requires forall j, k :: 0 <= j <= k < |ascending| ==> ascending[j].bps <= ascending[k].bps
    requires multiset(ascending) == multiset(order)
    requires !Ruined(ascending, margin, Fixed(leverage))
    ensures !Ruined(order, margin, Fixed(leverage))
  {
    hide Equity, PerBp, SumBps, LossBps;
    var k := LossPrefix(ascending);
    FixedEquity(ascending, margin, leverage, k);
    if k == 0 {
      NothingLost(ascending, margin, leverage);
    }
    assert margin + PerBp(margin, leverage) * LossBps(ascending) > 0.0;
    LossOrderFree(ascending, order);
    SomeOrderRuins(order, margin, leverage);
  }

  lemma NothingLost(rows: seq<Trade>, margin: real, leverage: Option<real>)
    requires margin > 0.0
    ensures margin + PerBp(margin, leverage) * SumBps(rows[..0]) > 0.0
  {
    hide PerBp;
    assert PerBp(margin, leverage) * SumBps(rows[..0]) == 0.0;
  }

  lemma {:induction false} LossPrefix(rows: seq<Trade>) returns (k: nat)
    requires forall i, j :: 0 <= i <= j < |rows| ==> rows[i].bps <= rows[j].bps
    ensures k <= |rows| && SumBps(rows[..k]) == LossBps(rows)
    ensures k < |rows| ==> rows[k].bps >= 0.0
  {
    if rows == [] {
      return 0;
    }
    var init := rows[..|rows| - 1];
    k := LossPrefix(init);
    assert init[..k] == rows[..k];
    if k == |init| && rows[|rows| - 1].bps < 0.0 {
      k := |rows|;
      assert rows[..k] == rows;
      assert init[..|init|] == init;
    } else if k < |init| {
      assert rows[k].bps <= rows[|rows| - 1].bps;
    }
  }

  /** Every ordering is ruined exactly when the total uses up the margin. */
  lemma EveryOrderRuins(rows: seq<Trade>, margin: real, leverage: Option<real>)
    requires margin > 0.0 && (leverage.Some? ==> leverage.value >= 0.0)
    ensures (forall order :: multiset(order) == multiset(rows) ==> Ruined(order, margin, Fixed(leverage)))
       <==> margin + PerBp(margin, leverage) * SumBps(rows) <= 0.0
  {
    var c := PerBp(margin, leverage);
    PerBpNonNegative(margin, leverage);
    if margin + c * SumBps(rows) <= 0.0 {
      NotZero(c, SumBps(rows), margin);
      assert rows != [];
      forall order | multiset(order) == multiset(rows) ensures Ruined(order, margin, Fixed(leverage)) {
        SumBpsOrderFree(order, rows);
        FixedEquity(order, margin, leverage, |order|);
        assert order[..|order|] == order;
        assert |multiset(order)| == |multiset(rows)|;
        assert Equity(order, margin, Fixed(leverage), |order|) <= 0.0;
      }
    } else {
      GainsFirstLasts(rows, margin, leverage);
    }
  }

  lemma GainsFirstLasts(rows: seq<Trade>, margin: real, leverage: Option<real>)
    requires margin > 0.0 && (leverage.Some? ==> leverage.value >= 0.0)
    requires margin + PerBp(margin, leverage) * SumBps(rows) > 0.0
    ensures !Ruined(GainsFirst(rows), margin, Fixed(leverage))
  {
    hide Equity, PerBp, SumBps, Pick, GainsFirst;
    var order := GainsFirst(rows);
    forall k | 1 <= k <= |order| ensures Equity(order, margin, Fixed(leverage), k) > 0.0 {
      FixedEquity(order, margin, leverage, k);
      PerBpNonNegative(margin, leverage);
      GainsFirstPrefix(rows, k);
      Monotone(PerBp(margin, leverage), Min(0.0, SumBps(rows)), SumBps(order[..k]));
    }
  }

  /** No prefix of the gains-first ordering is below both zero and the total. */
  lemma GainsFirstPrefix(rows: seq<Trade>, k: nat)
    requires k <= |rows|
    ensures SumBps(GainsFirst(rows)[..k]) >= Min(0.0, SumBps(rows))
  {
    hide SumBps, Pick;
    SumBpsOrderFree(GainsFirst(rows), rows);
    PrefixOfSplit(Pick(rows, false), Pick(rows, true), k);
  }

  lemma PrefixOfSplit(gains: seq<Trade>, losses: seq<Trade>, k: nat)
    requires k <= |gains + losses|
    requires forall t :: t in gains ==> !(t.bps < 0.0)
    requires forall t :: t in losses ==> t.bps < 0.0
    ensures SumBps((gains + losses)[..k]) >= Min(0.0, SumBps(gains + losses))
  {
    hide SumBps;
    var order := gains + losses;
    if k <= |gains| {
      assert order[..k] == gains[..k];
      Signed(gains[..k], false);
    } else {
      var rest := losses[k - |gains|..];
      assert order == order[..k] + rest;
      SumBpsAppend(order[..k], rest);
      Signed(rest, true);
    }
  }

  lemma {:induction false} Signed(rows: seq<Trade>, losing: bool)
    requires forall t :: t in rows ==> (t.bps < 0.0 <==> losing)
    ensures if losing then SumBps(rows) <= 0.0 else SumBps(rows) >= 0.0
  {
    if rows != [] {
      assert rows[|rows| - 1] in rows;
      Signed(rows[..|rows| - 1], losing);
    }
  }

  /** Under fixed leverage the reported equity is the same for every ordering
      exactly when the losses alone leave some margin or the total leaves none;
      otherwise it depends on the order. */
  lemma ReportedOrderFree(rows: seq<Trade>, margin: real, leverage: Option<real>)
    requires margin > 0.0 && (leverage.Some? ==> leverage.value >= 0.0)
    ensures (forall order :: multiset(order) == multiset(rows) ==>
               Reported(order, margin, Fixed(leverage)) == Reported(rows, margin, Fixed(leverage)))
       <==> (margin + PerBp(margin, leverage) * LossBps(rows) > 0.0
             || margin + PerBp(margin, leverage) * SumBps(rows) <= 0.0)
  {
    var c := PerBp(margin, leverage);
    hide PerBp, SumBps, LossBps, Equity, Ruined;
    SomeOrderRuins(rows, margin, leverage);
    EveryOrderRuins(rows, margin, leverage);
    if margin + c * LossBps(rows) > 0.0 || margin + c * SumBps(rows) <= 0.0 {
      forall order | multiset(order) == multiset(rows)
        ensures Reported(order, margin, Fixed(leverage)) == Reported(rows, margin, Fixed(leverage))
      {
        FinalEquityOrderFree(order, rows, margin, leverage);
      }
    } else {
      LossesFirstRuins(rows, margin, leverage);
      GainsFirstLasts(rows, margin, leverage);
      var order := GainsFirst(rows);
      FixedEquity(order, margin, leverage, |order|);
      assert order[..|order|] == order;
      SumBpsOrderFree(order, rows);
      assert Reported(order, margin, Fixed(leverage)) > 0.0;
      assert Reported(LossesFirst(rows), margin, Fixed(leverage)) == 0.0;
    }
  }

  /** The order does matter: at 30x on a margin of 100, losing 400 bps before winning
      500 is reported as zero, and after winning them as 130. */
  lemma OrderChangesReport()
    ensures var loss, gain := Trade(-400.0, 0.01), Trade(500.0, 0.01);
            var early, late := [loss, gain], [gain, loss];
            && multiset(early) == multiset(late)
            && Reported(early, 100.0, Fixed(Some(30.0))) == 0.0
            && Reported(late, 100.0, Fixed(Some(30.0))) == 130.0
  {
    var loss, gain := Trade(-400.0, 0.01), Trade(500.0, 0.01);
    var early, late, sizing := [loss, gain], [gain, loss], Fixed(Some(30.0));
    assert early == [loss] + [gain] && late == [gain] + [loss];
    assert Equity(early, 100.0, sizing, 0) == Equity(late, 100.0, sizing, 0) == 100.0;
    assert Equity(early, 100.0, sizing, 1) == -20.0;
    RuinedAt(early, 100.0, sizing, 1);
    assert Equity(late, 100.0, sizing, 1) == 250.0;
    assert Equity(late, 100.0, sizing, 2) == 130.0;
    NeverRuined(late, 100.0, sizing);
  }

  // ---------- risk sizing ----------

  /** What a trade multiplies a positive equity by. */
  function Factor(t: Trade, pct: real, cap: real): real {
    1.0 + t.bps * (if t.stop > 0.0 then Min(pct / t.stop, cap) else 0.0) / 10000.0
  }

  function Product(rows: seq<Trade>, pct: real, cap: real): real {
    if rows == [] then 1.0 else Product(rows[..|rows| - 1], pct, cap) * Factor(rows[|rows| - 1], pct, cap)
  }

  lemma RiskStep(margin: real, pct: real, cap: real, e: real, t: Trade)
    requires e > 0.0
    ensures e + Pnl(margin, Risk(pct, cap), e, t) == e * Factor(t, pct, cap)
  {
    if t.stop > 0.0 {
      var q := pct / t.stop;
      assert e * pct / t.stop == e * q;
      ScaledMin(e, q, cap);
      Regroup(e, t.bps, Min(q, cap));
    }
  }

  lemma ScaledMin(e: real, a: real, b: real)
    requires e > 0.0
    ensures Min(e * a, e * b) == e * Min(a, b)
  {
    if a <= b {
      Monotone(e, a, b);
    } else {
      assert e * (a - b) > 0.0;
    }
  }

  lemma Regroup(e: real, bps: real, share: real)
    ensures e + bps * (e * share) / 10000.0 == e * (1.0 + bps * share / 10000.0)
  {
    assert bps * (e * share) == e * (bps * share);
    assert e * (bps * share) / 10000.0 == e * (bps * share / 10000.0);
  }

  lemma {:induction false} RiskEquity(rows: seq<Trade>, margin: real, pct: real, cap: real, k: nat)
    requires k <= |rows| && margin > 0.0
    requires forall j :: 0 <= j < k ==> Factor(rows[j], pct, cap) > 0.0
    ensures Equity(rows, margin, Risk(pct, cap), k) == margin * Product(rows[..k], pct, cap)
    ensures Equity(rows, margin, Risk(pct, cap), k) > 0.0
  {
    hide Factor, Pnl;
    if k > 0 {
      RiskEquity(rows, margin, pct, cap, k - 1);
      assert rows[..k][..k - 1] == rows[..k - 1];
      var e, p, f := Equity(rows, margin, Risk(pct, cap), k - 1), Product(rows[..k - 1], pct, cap),
        Factor(rows[k - 1], pct, cap);
      RiskStep(margin, pct, cap, e, rows[k - 1]);
      Associate(margin, p, f);
      Positive(e, f);
    } else {
      assert Product(rows[..0], pct, cap) == 1.0;
    }
  }

  lemma Associate(a: real, b: real, c: real)
    ensures (a * b) * c == a * (b * c)
  {
  }

  lemma Positive(a: real, b: real)
    requires a > 0.0
    ensures a * b > 0.0 <==> b > 0.0
  {
    if b > 0.0 {
      assert a * b > 0.0;
    } else {
      Monotone(a, b, 0.0);
    }
  }

  ghost predicate HasWipeout(rows: seq<Trade>, pct: real, cap: real) {
    exists t :: t in rows && Factor(t, pct, cap) <= 0.0
  }

  /** Under risk sizing a walk is ruined exactly when some single trade loses the
      whole equity; so ruin cannot depend on the order. */
  lemma RiskRuin(rows: seq<Trade>, margin: real, pct: real, cap: real)
    requires margin > 0.0
    ensures Ruined(rows, margin, Risk(pct, cap)) <==> HasWipeout(rows, pct, cap)
  {
    hide Factor, Pnl;
    if HasWipeout(rows, pct, cap) {
      var k := FirstWipeout(rows, pct, cap);
      hide HasWipeout;
      RiskEquity(rows, margin, pct, cap, k);
      var e := Equity(rows, margin, Risk(pct, cap), k);
      RiskStep(margin, pct, cap, e, rows[k]);
      Positive(e, Factor(rows[k], pct, cap));
      assert Equity(rows, margin, Risk(pct, cap), k + 1) <= 0.0;
    } else {
      forall k | 1 <= k <= |rows| ensures Equity(rows, margin, Risk(pct, cap), k) > 0.0 {
        forall j | 0 <= j < k ensures Factor(rows[j], pct, cap) > 0.0 {
          assert rows[j] in rows;
        }
        RiskEquity(rows, margin, pct, cap, k);
      }
    }
  }

  lemma {:induction false} FirstWipeout(rows: seq<Trade>, pct: real, cap: real) returns (k: nat)
    requires HasWipeout(rows, pct, cap)
    ensures k < |rows| && Factor(rows[k], pct, cap) <= 0.0
    ensures forall j :: 0 <= j < k ==> Factor(rows[j], pct, cap) > 0.0
  {
    hide Factor;
    var init := rows[..|rows| - 1];
    if HasWipeout(init, pct, cap) {
      k := FirstWipeout(init, pct, cap);
    } else {
      k := |init|;
      assert forall j :: 0 <= j < k ==> rows[j] in init;
      assert rows == init + [rows[k]];
    }
  }

  lemma {:induction false} ProductAppend(a: seq<Trade>, b: seq<Trade>, pct: real, cap: real)
    ensures Product(a + b, pct, cap) == Product(a, pct, cap) * Product(b, pct, cap)
  {
    hide Factor;
    if b == [] {
      assert a + b == a;
    } else {
      var init := b[..|b| - 1];
      assert (a + b)[..|a + b| - 1] == a + init;
      ProductAppend(a, init, pct, cap);
      Associate(Product(a, pct, cap), Product(init, pct, cap), Factor(b[|b| - 1], pct, cap));
    }
  }

  lemma ProductWithout(rows: seq<Trade>, k: nat, pct: real, cap: real)
    requires k < |rows|
    ensures Product(rows, pct, cap) == Product(Without(rows, k), pct, cap) * Factor(rows[k], pct, cap)
  {
    hide Factor, Product;
    var a, b, f := Product(rows[..k], pct, cap), Product(rows[k + 1..], pct, cap), Factor(rows[k], pct, cap);
    ProductAppend(rows[..k], rows[k + 1..], pct, cap);
    ProductAppend(rows[..k], [rows[k]], pct, cap);
    ProductAppend(rows[..k] + [rows[k]], rows[k + 1..], pct, cap);
    ProductOfOne(rows[k], pct, cap);
    assert rows == rows[..k] + [rows[k]] + rows[k + 1..];
    Associate(a, f, b);
    Associate(a, b, f);
  }

  lemma ProductOfOne(t: Trade, pct: real, cap: real)
    ensures Product([t], pct, cap) == Factor(t, pct, cap)
  {
    hide Factor;
    assert [t][..0] == [];
    assert Product([], pct, cap) == 1.0;
  }

  lemma {:induction false} ProductOrderFree(a: seq<Trade>, b: seq<Trade>, pct: real, cap: real)
    requires multiset(a) == multiset(b)
    ensures Product(a, pct, cap) == Product(b, pct, cap)
    decreases |a|
  {
    hide Without, Factor;
    if a == [] {
      NoTrades(a, b);
    } else {
      var k := TakeOut(a, b);
      ProductOrderFree(a[..|a| - 1], Without(b, k), pct, cap);
      ProductWithout(b, k, pct, cap);
    }
  }

  /** Under risk sizing all orderings report the same: zero if some trade is a
      wipe-out, else the margin times the product of the trades' factors. */
  lemma RiskOrderFree(a: seq<Trade>, b: seq<Trade>, margin: real, pct: real, cap: real)
    requires margin > 0.0 && multiset(a) == multiset(b)
    ensures Ruined(a, margin, Risk(pct, cap)) <==> Ruined(b, margin, Risk(pct, cap))
    ensures Reported(a, margin, Risk(pct, cap)) == Reported(b, margin, Risk(pct, cap))
    ensures !Ruined(a, margin, Risk(pct, cap)) ==> Reported(a, margin, Risk(pct, cap)) == margin * Product(a, pct, cap)
  {
    hide Ruined, Factor, Product, Equity, HasWipeout;
    RiskRuin(a, margin, pct, cap);
    RiskRuin(b, margin, pct, cap);
    SameWipeouts(a, b, pct, cap);
    if !HasWipeout(a, pct, cap) {
      RiskFinal(a, margin, pct, cap);
      RiskFinal(b, margin, pct, cap);
      ProductOrderFree(a, b, pct, cap);
    }
  }

  lemma RiskFinal(rows: seq<Trade>, margin: real, pct: real, cap: real)
    requires margin > 0.0 && !HasWipeout(rows, pct, cap)
    ensures Equity(rows, margin, Risk(pct, cap), |rows|) == margin * Product(rows, pct, cap)
  {
    hide Factor, Product, Equity;
    forall j | 0 <= j < |rows| ensures Factor(rows[j], pct, cap) > 0.0 {
      assert rows[j] in rows;
    }
    RiskEquity(rows, margin, pct, cap, |rows|);
    assert rows[..|rows|] == rows;
  }

  lemma SameWipeouts(a: seq<Trade>, b: seq<Trade>, pct: real, cap: real)
    requires multiset(a) == multiset(b)
    ensures HasWipeout(a, pct, cap) <==> HasWipeout(b, pct, cap)
  {
    hide Factor;
    SameMembers(a, b);
  }

  lemma SameMembers(a: seq<Trade>, b: seq<Trade>)
    requires multiset(a) == multiset(b)
    ensures forall t :: t in a <==> t in b
  {
    forall t ensures t in a <==> t in b {
      assert t in a <==> t in multiset(a);
    }
  }

  // ---------- the ruin rate ----------

  ghost function RuinCount(orders: seq<seq<Trade>>, margin: real, sizing: Sizing): (n: nat)
    ensures n <= |orders|
  {
    if orders == [] then 0
    else
      RuinCount(orders[..|orders| - 1], margin, sizing)
      + (if Ruined(orders[|orders| - 1], margin, sizing) then 1 else 0)
  }

  /** orders are the shuffles drawn; with no trials the division fails. */
  method RuinRate(orders: seq<seq<Trade>>, margin: real, sizing: Sizing) returns (rate: Option<real>)
    ensures rate == if orders == [] then None
                    else Some(100.0 * RuinCount(orders, margin, sizing) as real / |orders| as real)
  {
    hide Ruined;
    var ruins := 0;
    for k := 0 to |orders|
      invariant ruins == RuinCount(orders[..k], margin, sizing)
    {
      assert orders[..k + 1][..k] == orders[..k];
      var r, n := Walk(orders[k], margin, sizing);
      if r.ruined {
        ruins := ruins + 1;
      }
    }
    assert orders[..|orders|] == orders;
    rate := if orders == [] then None else Some(100.0 * ruins as real / |orders| as real);
  }

  lemma {:induction false} CountAll(orders: seq<seq<Trade>>, margin: real, sizing: Sizing, ruined: bool)
    requires forall k :: 0 <= k < |orders| ==> (Ruined(orders[k], margin, sizing) <==> ruined)
    ensures RuinCount(orders, margin, sizing) == if ruined then |orders| else 0
  {
    hide Ruined;
    if orders != [] {
      CountAll(orders[..|orders| - 1], margin, sizing, ruined);
    }
  }

  /** Under risk sizing the ruin count is all of the shuffles or none of them. */
  lemma RiskRateAllOrNothing(rows: seq<Trade>, orders: seq<seq<Trade>>, margin: real, pct: real, cap: real)
    requires margin > 0.0 && forall k :: 0 <= k < |orders| ==> multiset(orders[k]) == multiset(rows)
    ensures RuinCount(orders, margin, Risk(pct, cap)) == if HasWipeout(rows, pct, cap) then |orders| else 0
  {
    hide RuinCount;
    forall k | 0 <= k < |orders| ensures Ruined(orders[k], margin, Risk(pct, cap)) <==> HasWipeout(rows, pct, cap) {
      RiskRuin(rows, margin, pct, cap);
      RiskOrderFree(orders[k], rows, margin, pct, cap);
    }
    hide Ruined;
    CountAll(orders, margin, Risk(pct, cap), HasWipeout(rows, pct, cap));
  }
}
