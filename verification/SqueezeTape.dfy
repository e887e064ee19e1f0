/** What compression, arms and trades of the squeeze and hybrid replays mean on the
    tape: which bars are the narrow ones, what an arm holds, what a trade earns. */
module SqueezeTape {
  import opened Columns
  import opened Common
  import opened SqueezeWindows
  import opened SqueezeWindowsLaws

  // ---------- the narrow bars ----------

  /** The bars of the rank window whose span is below the newest one's. */
  ghost function Narrower(bars: seq<Bar>, i: nat): set<nat>
    requires FIRST_SPAN <= i < |bars| && Priced(bars)
  {
    set k: nat | RankStart(i) <= k <= i && Span(bars, k) < Span(bars, i)
  }

  lemma {:induction false} CountIsSize(s: seq<real>, x: real, at: set<nat>)
    requires at == set k: nat | k < |s| && s[k] < x
    ensures CountBelow(s, x) == |at|
  {
    if s == [] {
      assert at == {};
    } else {
      var init, last := s[..|s| - 1], |s| - 1;
      var before := set k: nat | k < |init| && init[k] < x;
      CountIsSize(init, x, before);
      assert at == if s[last] < x then before + {last} else before;
    }
  }

  lemma ShiftedSize(a: set<nat>, b: set<nat>, d: nat)
    requires b == set k: nat | k in a :: k + d
    ensures |b| == |a|
    decreases a
  {
    if a != {} {
      var x :| x in a;
      var rest, image := a - {x}, b - {x + d};
      assert x + d in b;
      forall y | y in image ensures y in set k: nat | k in rest :: k + d {
        var k: nat :| k in a && y == k + d;
        assert k in rest;
      }
      ShiftedSize(rest, image, d);
    }
  }

  lemma CountOnTape(bars: seq<Bar>, i: nat)
    requires FIRST_SPAN <= i < |bars| && Priced(bars)
    ensures CountBelow(RankWindow(bars, i), Span(bars, i)) == |Narrower(bars, i)|
  {
    hide Span;
    var w, x := RankWindow(bars, i), Span(bars, i);
    var at := set k: nat | k < |w| && w[k] < x;
    CountIsSize(w, x, at);
    forall k: nat | k in Narrower(bars, i) ensures k - RankStart(i) in at {
      assert w[k - RankStart(i)] == Span(bars, k);
    }
    assert Narrower(bars, i) == set k: nat | k in at :: k + RankStart(i) by {
      forall k: nat | k in Narrower(bars, i) ensures k in set m: nat | m in at :: m + RankStart(i) {
        assert k - RankStart(i) in at;
      }
    }
    ShiftedSize(at, Narrower(bars, i), RankStart(i));
  }

  /** A bar is compressed exactly when at most 403 of the latest 2016 spans, a fifth of
      them, are narrower than its own. */
  lemma CompressedExactly(bars: seq<Bar>, i: nat)
    requires i < |bars| && Priced(bars)
    ensures Compressed(bars, i) <==> i >= 2064 && |Narrower(bars, i)| <= 403
    ensures i >= 2064 ==> RankStart(i) == i - 2015
  {
    hide Span, RankWindow, CountBelow;
    if i >= FIRST_RANK {
      CountOnTape(bars, i);
      FifthOf(|Narrower(bars, i)|);
    }
  }

  lemma FifthOf(n: nat)
    ensures n as real / 2016.0 <= 0.20 <==> n <= 403
  {
    var q := n as real / 2016.0;
    assert q * 2016.0 == n as real;
  }

  /** The narrowest of the latest spans is always compressed, a strictly widest never. */
  lemma NarrowestIsCompressed(bars: seq<Bar>, i: nat)
    requires FIRST_RANK <= i < |bars| && Priced(bars)
    ensures (forall k: nat :: i - 2015 <= k <= i ==> Span(bars, i) <= Span(bars, k)) ==> Compressed(bars, i)
    ensures (forall k: nat :: i - 2015 <= k < i ==> Span(bars, k) < Span(bars, i)) ==> !Compressed(bars, i)
  {
    hide Span, Compressed;
    CompressedExactly(bars, i);
    if forall k: nat :: i - 2015 <= k <= i ==> Span(bars, i) <= Span(bars, k) {
      assert Narrower(bars, i) == {};
    }
    if forall k: nat :: i - 2015 <= k < i ==> Span(bars, k) < Span(bars, i) {
      RangeSize(i - 2015, 2015, Narrower(bars, i));
    }
  }

  lemma {:induction false} RangeSize(lo: nat, n: nat, s: set<nat>)
    requires forall k: nat :: k in s <==> lo <= k < lo + n
    ensures |s| == n
  {
    if n == 0 {
      assert s == {};
    } else {
      var rest := s - {lo + n - 1};
      RangeSize(lo, n - 1, rest);
      assert s == rest + {lo + n - 1};
    }
  }

  /** A span is the widest distance from a low to a high of the forty-eight bars before,
      relative to the last close. */
  lemma SpanOnTape(bars: seq<Bar>, i: nat)
    requires FIRST_SPAN <= i < |bars| && Priced(bars)
    ensures forall a, b :: i - 48 <= a < i && i - 48 <= b < i && bars[i - 1].close > 0.0 ==>
              bars[a].high - bars[b].low <= Times(Span(bars, i), bars[i - 1].close)
    ensures exists a, b :: i - 48 <= a < i && i - 48 <= b < i
              && bars[a].high - bars[b].low == Times(Span(bars, i), bars[i - 1].close)
  {
    SpanOfBox(bars, i);
    BoxOnTape(bars, 48, i);
    hide BoxHigh, BoxLow, Span, Times;
    var a :| i - 48 <= a < i && bars[a].high == BoxHigh(bars, 48, i);
    var b :| i - 48 <= b < i && bars[b].low == BoxLow(bars, 48, i);
    assert bars[a].high - bars[b].low == Times(Span(bars, i), bars[i - 1].close);
  }

  lemma SpanOfBox(bars: seq<Bar>, i: nat)
    requires FIRST_SPAN <= i < |bars| && Priced(bars)
    ensures Times(Span(bars, i), bars[i - 1].close) == BoxHigh(bars, 48, i) - BoxLow(bars, 48, i)
  {
    hide BoxHigh, BoxLow;
    var c, move := bars[i - 1].close, BoxHigh(bars, 48, i) - BoxLow(bars, 48, i);
    assert move / c * c == move;
  }

  lemma BoxOnTape(bars: seq<Bar>, n: nat, i: nat)
    requires 0 < n <= i <= |bars|
    ensures forall k :: i - n <= k < i ==> BoxLow(bars, n, i) <= bars[k].low && bars[k].high <= BoxHigh(bars, n, i)
    ensures exists k :: i - n <= k < i && bars[k].low == BoxLow(bars, n, i)
    ensures exists k :: i - n <= k < i && bars[k].high == BoxHigh(bars, n, i)
  {
    var hs, ls := Highs(bars)[i - n..i], Lows(bars)[i - n..i];
    var h :| 0 <= h < n && hs[h] == MaxOf(hs);
    var l :| 0 <= l < n && ls[l] == MinOf(ls);
    assert bars[i - n + h].high == BoxHigh(bars, n, i) && bars[i - n + l].low == BoxLow(bars, n, i);
    assert forall k :: i - n <= k < i ==> hs[k - (i - n)] == bars[k].high && ls[k - (i - n)] == bars[k].low;
    hide MaxOf, MinOf;
  }

  // ---------- arms ----------

  /** A body of at least three fifths of the range, on two and a half times the volume
      of the forty-eight bars before. */
  ghost predicate Bursts(bars: seq<Bar>, i: nat)
    requires 48 <= i < |bars|
  {
    var b := bars[i];
    && b.high > b.low && 5.0 * Abs(b.close - b.open) >= 3.0 * (b.high - b.low)
    && 48.0 * b.volume >= 2.5 * Sum(Volumes(bars)[i - 48..i])
  }

  ghost predicate Alive(bars: seq<Bar>, i: nat)
    requires 48 < i < |bars|
  {
    Sum(Volumes(bars)[i - 48..i]) > 0.0 && Sum(TrueRanges(bars, i - 48, i)) > 0.0
  }

  /** When an arm is offered, and of which kind: the squeeze replay offers its box on
      every bar; the hybrid one offers the box while compressed, else a burst. */
  lemma ArmExactly(bars: seq<Bar>, i: nat, start: int, mode: Mode)
    requires FIRST_RANK <= i < |bars| && Priced(bars)
    ensures var arm := ArmAt(bars, i, start, mode);
            var coil := mode == Squeeze || (mode != Ignition && Compressed(bars, i));
            && (arm.Some? <==> bars[i].ts >= start && (mode == Squeeze || Alive(bars, i))
                               && (coil || (mode != Coil && Bursts(bars, i))))
            && (arm.Some? ==> HoldsBox(bars, i, arm.value, if coil then CoilArm else IgnitionArm)
                              && (arm.value.compressed <==> Compressed(bars, i) || !coil)
                              && arm.value.episode == if coil then Episode(bars, i) else -(i + 1))
  {
    hide BoxHigh, BoxLow, Episode, Compressed, VwapAt, Sum, TrueRanges;
    BoxOnTape(bars, 48, i);
    BoxOnTape(bars, 24, i);
    MeanOf(Sum(Volumes(bars)[i - 48..i]), bars[i].volume);
    MeanOf(Sum(TrueRanges(bars, i - 48, i)), 0.0);
  }

  lemma MeanOf(total: real, x: real)
    ensures total / 48.0 <= 0.0 <==> total <= 0.0
    ensures x >= IGNITION_VOL_MULT * (total / 48.0) <==> 48.0 * x >= 2.5 * total
  {
  }

  /** The box is the range of the bars before, forty-eight of them for a coil and
      twenty-four for an ignition; the close before it and the prior averages go along. */
  ghost predicate HoldsBox(bars: seq<Bar>, i: nat, arm: Arm, kind: Kind)
    requires FIRST_RANK <= i < |bars|
  {
    var n := if kind == CoilArm then 48 else 24;
    && arm.kind == kind && arm.prevClose == bars[i - 1].close
    && (forall k :: i - n <= k < i ==> arm.boxLow <= bars[k].low && bars[k].high <= arm.boxHigh)
    && (exists k :: i - n <= k < i && bars[k].low == arm.boxLow)
    && (exists k :: i - n <= k < i && bars[k].high == arm.boxHigh)
    && 48.0 * arm.volMean == Sum(Volumes(bars)[i - 48..i])
    && 48.0 * arm.atr == Sum(TrueRanges(bars, i - 48, i))
    && arm.vwap == VwapAt(bars, i)
  }

  lemma {:induction false} NotionalBounds(closes: seq<real>, volumes: seq<real>, notionals: seq<real>, low: real,
                                          high: real)
    requires |closes| == |volumes| == |notionals|
    requires forall k :: 0 <= k < |closes| ==>
               notionals[k] == Times(closes[k], volumes[k]) && volumes[k] >= 0.0 && low <= closes[k] <= high
    ensures Times(low, Sum(volumes)) <= Sum(notionals) <= Times(high, Sum(volumes))
  {
    if closes != [] {
      hide Times;
      var n := |closes| - 1;
      NotionalBounds(closes[..n], volumes[..n], notionals[..n], low, high);
      OneMore(low, closes[n], high, volumes[n], Sum(volumes[..n]));
    }
  }

  lemma OneMore(low: real, c: real, high: real, v: real, rest: real)
    requires v >= 0.0 && low <= c <= high
    ensures Times(low, rest + v) == Times(low, rest) + Times(low, v)
    ensures Times(high, rest + v) == Times(high, rest) + Times(high, v)
    ensures Times(low, v) <= Times(c, v) <= Times(high, v)
  {
  }

  /** The day's average price lies among the closes of the at most 288 bars before. */
  lemma VwapAmongCloses(bars: seq<Bar>, i: nat, low: real, high: real)
    requires i <= |bars| && ValidTape(bars) && VwapAt(bars, i).Some?
    requires forall k :: 0 <= k < i && i - 288 <= k ==> low <= bars[k].close <= high
    ensures low <= VwapAt(bars, i).value <= high
  {
    hide Times, Sum;
    var from := VwapStart(i);
    var c, v, p := Closes(bars)[from..i], Volumes(bars)[from..i], Notionals(bars)[from..i];
    forall k | 0 <= k < |c| ensures p[k] == Times(c[k], v[k]) && v[k] >= 0.0 && low <= c[k] <= high {
      assert ValidBar(bars[from + k]);
    }
    NotionalBounds(c, v, p, low, high);
    Divides(Sum(p), Sum(v), low, high);
  }

  lemma Divides(notional: real, volume: real, low: real, high: real)
    requires volume > 0.0 && Times(low, volume) <= notional <= Times(high, volume)
    ensures low <= notional / volume <= high
  {
    var q := notional / volume;
    assert q * volume == notional;
    InOrder(low, q, volume);
    InOrder(q, high, volume);
  }

  lemma InOrder(x: real, y: real, k: real)
    requires k > 0.0
    ensures x <= y <==> Times(x, k) <= Times(y, k)
  {
  }

  // ---------- trades ----------

  /** The position its bar's reply called for, out on the first bar with an exit, at its
      price, for the move in its favour less the fee. */
  ghost predicate PaysRight(answers: seq<Answers>, fee: int -> real, t: Trade) {
    var o := t.position;
    && o.bar < t.exitBar < |answers| && t.held == t.exitBar - o.bar
    && answers[o.bar].reply == Fired(o.side, o.entry)
    && answers[t.exitBar].exit == Some(Exit(t.exit, t.reason))
    && (forall k :: o.bar < k < t.exitBar ==> answers[k].exit.None?)
    && o.entry * (t.netBps + fee(t.held)) == 10000.0 * if o.side == Long then t.exit - o.entry else o.entry - t.exit
  }

  ghost predicate HeldRight(answers: seq<Answers>, n: nat, o: Position)
    requires n <= |answers|
  {
    && FIRST_RANK <= o.bar < n && answers[o.bar].reply == Fired(o.side, o.entry)
    && forall k :: o.bar < k < n ==> answers[k].exit.None?
  }

  lemma ClosePays(o: Position, x: Exit, i: nat, fee: int -> real)
    ensures var t := CloseTrade(o, x, i, fee);
            && t.position == o && t.exit == x.price && t.reason == x.reason && t.exitBar == i && t.held == i - o.bar
            && o.entry * (t.netBps + fee(t.held))
            == 10000.0 * if o.side == Long then t.exit - o.entry else o.entry - t.exit
  {
    var e, q := o.entry as real, x.price / o.entry as real;
    assert q * e == x.price;
    if o.side == Long {
      assert e * ((q - 1.0) * 10000.0) == 10000.0 * (q * e - e);
    } else {
      assert e * ((1.0 - q) * 10000.0) == 10000.0 * (e - q * e);
    }
  }

  ghost predicate AllPay(answers: seq<Answers>, fee: int -> real, n: nat, s: State)
    requires n <= |answers|
  {
    && (forall k :: 0 <= k < |s.trades| ==> PaysRight(answers, fee, s.trades[k]))
    && (s.open.Some? ==> HeldRight(answers, n, s.open.value))
  }

  lemma StepPays(bars: seq<Bar>, i: nat, start: int, mode: Mode, fee: int -> real, answers: seq<Answers>, s: State)
    requires i < |bars| == |answers| && Priced(bars) && AllPay(answers, fee, i, s)
    ensures AllPay(answers, fee, i + 1, Step(bars, i, start, mode, fee, answers[i], s))
  {
    hide ArmAt, CloseTrade;
    if s.open.Some? && answers[i].exit.Some? {
      ClosePays(s.open.value, answers[i].exit.value, i, fee);
    }
  }

  /** Over every run, in every mode, each position is the one the reply called for and
      each trade pays what the first exit after it calls for. */
  lemma {:induction false} TradesPay(bars: seq<Bar>, answers: seq<Answers>, start: int, mode: Mode, fee: int -> real,
                                     n: nat)
    requires n <= |bars| == |answers| && Priced(bars)
    ensures AllPay(answers, fee, n, Run(bars, answers, start, mode, fee, n))
  {
    hide Step, AllPay;
    if n == 0 {
      NothingPays(answers, fee);
    } else {
      TradesPay(bars, answers, start, mode, fee, n - 1);
      StepPays(bars, n - 1, start, mode, fee, answers, Run(bars, answers, start, mode, fee, n - 1));
    }
  }

  lemma NothingPays(answers: seq<Answers>, fee: int -> real)
    ensures AllPay(answers, fee, 0, INITIAL)
  {
  }

  /** No arm is kept from the trigger: on every bar from the first ranked one on that
      finds no position open, the arm there is, is offered. */
  lemma {:induction false} EveryArmOffered(bars: seq<Bar>, answers: seq<Answers>, start: int, mode: Mode,
                                           fee: int -> real, n: nat, i: nat)
    requires FIRST_RANK <= i < n <= |bars| == |answers| && Priced(bars)
    requires Run(bars, answers, start, mode, fee, i).open.None? && ArmAt(bars, i, start, mode).Some?
    ensures Offer(i, ArmAt(bars, i, start, mode).value) in Run(bars, answers, start, mode, fee, n).offers
    decreases n
  {
    hide ArmAt, CloseTrade;
    if i < n - 1 {
      EveryArmOffered(bars, answers, start, mode, fee, n - 1, i);
    }
  }
}
