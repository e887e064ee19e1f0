/** What the continuation replay's trades mean in prices: when a bar enters, at what
    price and stop, what a trade earns and how long it cools down. */
module HtfTape {
  import opened Common
  import opened HtfReplay
  import opened HtfLaws

  // ---------- what a trade earns ----------

  /** The move from entry to exit in the position's favour. */
  function Move(t: Trade): real {
    if t.position.side == Long then t.exit - t.position.entry else t.position.entry - t.exit
  }

  /** The gross result is that move over the entry price, in basis points, and the net
      ones are the costs below it. */
  ghost predicate Accounted(p: Params, t: Trade) {
    && t.position.entry * t.grossBps == 10000.0 * Move(t)
    && t.netRealizedBps == t.grossBps - p.realizedCost
    && t.netGateBps == t.grossBps - p.gateCost
    && t.held == t.exitBar - t.position.entryBar
  }

  lemma CloseAccounted(p: Params, pos: Position, d: Decision, i: nat)
    ensures var t := CloseTrade(p, pos, d, i);
            Accounted(p, t) && t.position == pos && t.exit == d.price && t.exitBar == i && t.reason == d.reason
  {
    var e, q := pos.entry as real, d.price / pos.entry as real;
    assert q * e == d.price;
    if pos.side == Long {
      assert e * ((q - 1.0) * 10000.0) == 10000.0 * (q * e - e);
    } else {
      assert e * ((1.0 - q) * 10000.0) == 10000.0 * (e - q * e);
    }
  }

  /** How a trade ends, in prices: on its entry bar at the stop the bar reached, or at
      the first later decision's price, or at the last close. */
  ghost predicate EndsRight(p: Params, rows: seq<Row>, answers: seq<Answers>, t: Trade)
    requires |rows| == |answers|
  {
    var o := t.position;
    && o.entryBar <= t.exitBar < |rows|
    && var stopped := p.proxy == Touch
                      && if o.side == Long then rows[o.entryBar].low <= o.stop else rows[o.entryBar].high >= o.stop;
    if stopped then t.exitBar == o.entryBar && t.exit == o.stop
    else
      && (forall k :: o.entryBar < k < t.exitBar ==> answers[k].onBar.None? && answers[k].exitSignal.None?)
      && (|| (&& o.entryBar < t.exitBar && answers[t.exitBar].onBar.Some?
              && t.exit == answers[t.exitBar].onBar.value.price)
          || (&& o.entryBar < t.exitBar && answers[t.exitBar].onBar.None? && answers[t.exitBar].exitSignal.Some?
              && t.exit == rows[t.exitBar].close)
          || (&& t.exitBar == |rows| - 1 && t.exit == rows[t.exitBar].close
              && (o.entryBar < t.exitBar ==> answers[t.exitBar].onBar.None? && answers[t.exitBar].exitSignal.None?)))
  }

  lemma GoodTradeEnds(p: Params, rows: seq<Row>, answers: seq<Answers>, t: Trade)
    requires |rows| == |answers| && GoodTrade(p, rows, answers, t)
    ensures Accounted(p, t) && EndsRight(p, rows, answers, t)
  {
    hide GoodEntry, CloseTrade, Accounted;
    var o := t.position;
    if StoppedAtOnce(p, rows, t) {
      CloseAccounted(p, o, Decision(o.stop, "stop_same_bar_proxy"), o.entryBar);
    } else if Exited(p, rows, answers, t) {
      CloseAccounted(p, o, ExitAt(rows[t.exitBar], answers[t.exitBar]).value, t.exitBar);
    } else {
      CloseAccounted(p, o, Decision(rows[|rows| - 1].close, "end_of_data"), |rows| - 1);
    }
  }

  // ---------- where it enters ----------

  /** A touch fills at the level the bar went through; a close fills at itself, beyond
      the level by no more than the chase limit. */
  ghost predicate Fills(p: Params, row: Row, arm: Arm, side: Side, entry: real) {
    && (if side == Long then arm.allowLong else arm.allowShort)
    && match p.proxy
       case Touch =>
         if side == Long then row.high > arm.longLevel && entry == arm.longLevel
         else row.low < arm.shortLevel && entry == arm.shortLevel
       case Close =>
         && entry == row.close
         && if side == Long
            then row.close > arm.longLevel && (row.close - arm.longLevel) * 10000.0 <= p.maxChase * arm.longLevel
            else row.close < arm.shortLevel && (arm.shortLevel - row.close) * 10000.0 <= p.maxChase * arm.shortLevel
  }

  ghost predicate NoFill(p: Params, row: Row, arm: Arm, side: Side) {
    forall entry :: !Fills(p, row, arm, side, entry)
  }

  /** The further of the structural stop, if there is one, and the volatility stop. */
  ghost predicate StopsAt(p: Params, arm: Arm, side: Side, entry: real, stop: real) {
    var structural := if side == Long then arm.longStructural else arm.shortStructural;
    var distance := p.atrStopMult * arm.atr;
    if side == Long then
      && stop <= entry - distance && (structural.Some? ==> stop <= structural.value)
      && (stop == entry - distance || (structural.Some? && stop == structural.value))
    else
      && stop >= entry + distance && (structural.Some? ==> stop >= structural.value)
      && (stop == entry + distance || (structural.Some? && stop == structural.value))
  }

  lemma Chase(move: real, level: real, limit: real)
    requires level > 0.0
    ensures move / level * 10000.0 <= limit <==> move * 10000.0 <= limit * level
  {
    var q := move / level;
    assert q * level == move;
    assert q * 10000.0 * level == move * 10000.0;
    if q * 10000.0 <= limit {
      assert q * 10000.0 * level <= limit * level;
    } else {
      assert q * 10000.0 * level > limit * level;
    }
  }

  /** A long fill comes before a short one. */
  lemma CandidateExactly(p: Params, row: Row, arm: Arm, side: Side, entry: Price)
    ensures Candidate(row, arm, p) == Some((side, entry))
            <==> Fills(p, row, arm, side, entry) && (side == Short ==> NoFill(p, row, arm, Long))
  {
    Chase(row.close - arm.longLevel, arm.longLevel, p.maxChase);
    Chase(arm.shortLevel - row.close, arm.shortLevel, p.maxChase);
    var l := LongCandidate(row, arm, p);
    if arm.allowLong && l.Some? {
      assert Fills(p, row, arm, Long, l.value);
    }
  }

  lemma StopExactly(p: Params, arm: Arm, side: Side, entry: real, stop: real)
    ensures stop == StopFor(arm, side, entry, p) <==> StopsAt(p, arm, side, entry, stop)
  {
  }

  /** The entry in prices. */
  ghost predicate EntersRight(p: Params, rows: seq<Row>, answers: seq<Answers>, o: Position)
    requires |rows| == |answers|
  {
    && o.setupBar < o.entryBar < |rows| && answers[o.setupBar].arm.Some?
    && var arm := answers[o.setupBar].arm.value;
    && Fills(p, rows[o.entryBar], arm, o.side, o.entry)
    && (o.side == Short ==> NoFill(p, rows[o.entryBar], arm, Long))
    && StopsAt(p, arm, o.side, o.entry, o.stop) && 0.0 < o.stop
    && if o.side == Long then o.stop < o.entry else o.entry < o.stop
  }

  lemma GoodEntryEnters(p: Params, rows: seq<Row>, answers: seq<Answers>, o: Position)
    requires |rows| == |answers| && GoodEntry(p, rows, answers, o)
    ensures EntersRight(p, rows, answers, o)
  {
    var arm := answers[o.setupBar].arm.value;
    CandidateExactly(p, rows[o.entryBar], arm, o.side, o.entry);
    StopExactly(p, arm, o.side, o.entry, o.stop);
    hide Fills, NoFill, Candidate, StopFor, StopsAt;
  }

  /** Over every replay, each trade enters, ends and is accounted for in prices as it
      should be; and the next entry waits out the win cooldown exactly when the move
      paid more than the gate cost. */
  lemma TradesInPrices(p: Params, rows: seq<Row>, answers: seq<Answers>, k: nat)
    requires |rows| == |answers| && ValidAnswers(answers) && k < |Trades(p, rows, answers)|
    ensures var t := Trades(p, rows, answers)[k];
            Accounted(p, t) && EndsRight(p, rows, answers, t) && EntersRight(p, rows, answers, t.position)
    ensures k > 0 ==>
              var t, u := Trades(p, rows, answers)[k - 1], Trades(p, rows, answers)[k];
              u.position.entryBar >= t.exitBar + if Move(t) * 10000.0 > p.gateCost * t.position.entry
                                                 then p.cooldownWin else p.cooldownLoss
  {
    hide Trades, ValidAnswers, Accounted, EndsRight, EntersRight, GoodEntry, StoppedAtOnce, Exited, RanOut;
    TradesBooked(p, rows, answers);
    var trades := Trades(p, rows, answers);
    assert GoodTrade(p, rows, answers, trades[k]);
    GoodTradeEnds(p, rows, answers, trades[k]);
    GoodEntryEnters(p, rows, answers, trades[k].position);
    if k > 0 {
      assert GoodTrade(p, rows, answers, trades[k - 1]);
      GoodTradeEnds(p, rows, answers, trades[k - 1]);
      WonExactly(p, trades[k - 1]);
    }
  }

  lemma WonExactly(p: Params, t: Trade)
    requires Accounted(p, t)
    ensures t.netGateBps > 0.0 <==> Move(t) * 10000.0 > p.gateCost * t.position.entry
  {
    var e := t.position.entry as real;
    assert e * (t.grossBps - p.gateCost) == e * t.grossBps - p.gateCost * e;
    SignOfProduct(e, t.netGateBps);
  }

  lemma SignOfProduct(e: real, x: real)
    requires e > 0.0
    ensures e * x > 0.0 <==> x > 0.0
  {
  }

  /** So a trade earns before costs exactly when the price moved its way, and one stopped
      on its entry bar loses exactly its risk. */
  lemma GrossFollowsPrice(p: Params, rows: seq<Row>, answers: seq<Answers>, k: nat)
    requires |rows| == |answers| && ValidAnswers(answers) && k < |Trades(p, rows, answers)|
    ensures var t := Trades(p, rows, answers)[k];
            && (t.grossBps > 0.0 <==> if t.position.side == Long then t.exit > t.position.entry
                                      else t.exit < t.position.entry)
            && (t.exitBar == t.position.entryBar < |rows| - 1 ==>
                  t.exit == t.position.stop
                  && t.position.entry * t.grossBps == -10000.0 * Abs(t.position.entry - t.position.stop))
  {
    TradesInPrices(p, rows, answers, k);
    hide Trades, Fills, NoFill, StopsAt;
    var t := Trades(p, rows, answers)[k];
    SignOfProduct(t.position.entry, t.grossBps);
  }

  // ---------- when a bar enters ----------

  /** An arm in hand that has not expired, made on an earlier bar, outside the cooldown
      and the evaluation's lead-in. */
  ghost predicate Ready(p: Params, row: Row, i: nat, s: State) {
    && s.open.None? && s.pending.Some? && row.ts >= p.evalStart && i >= s.cooldownUntil && s.fires < p.maxFires
    && s.pending.value.barIndex < i <= s.pending.value.barIndex + s.pending.value.expiresAfter
  }

  ghost predicate Enterable(p: Params, row: Row, arm: Arm, side: Side, entry: real, stop: real) {
    && Fills(p, row, arm, side, entry) && (side == Short ==> NoFill(p, row, arm, Long))
    && StopsAt(p, arm, side, entry, stop) && 0.0 < stop
    && if side == Long then stop < entry else entry < stop
  }

  /** A bar enters exactly when it is ready and the arm can be filled with a stop on its
      proper side; then with that side, price and stop. */
  lemma EntersExactly(p: Params, row: Row, i: nat, s: State)
    requires s.open.None?
    ensures var t := Enter(p, row, i, s);
            && (|Opened(t)| > |Opened(s)| <==>
                  Ready(p, row, i, s)
                  && exists side, entry: Price, stop :: Enterable(p, row, s.pending.value, side, entry, stop))
            && (|Opened(t)| > |Opened(s)| ==>
                  var o := Opened(t)[|Opened(s)|];
                  o.entryBar == i && Enterable(p, row, s.pending.value, o.side, o.entry, o.stop))
  {
    EnterOpens(p, row, i, s);
    hide Opened, Candidate, StopFor, Fills, NoFill, StopsAt;
    if s.pending.Some? {
      EntersArm(p, row, i, s, s.pending.value);
    } else {
      SameOpened(s, Enter(p, row, i, s));
    }
  }

  lemma EntersArm(p: Params, row: Row, i: nat, s: State, arm: Arm)
    requires s.open.None? && s.pending == Some(arm)
    ensures var t := Enter(p, row, i, s);
            && (|Opened(t)| > |Opened(s)| <==>
                  Ready(p, row, i, s) && exists side, entry: Price, stop :: Enterable(p, row, arm, side, entry, stop))
            && (|Opened(t)| > |Opened(s)| ==>
                  var o := Opened(t)[|Opened(s)|];
                  o.entryBar == i && Enterable(p, row, arm, o.side, o.entry, o.stop))
  {
    var t, c := Enter(p, row, i, s), Candidate(row, arm, p);
    forall side, entry: Price, stop
      ensures Enterable(p, row, arm, side, entry, stop)
              <==> && c == Some((side, entry)) && stop == StopFor(arm, side, entry, p) && stop > 0.0
                   && Risk(side, entry, stop) > 0.0
    {
      CandidateExactly(p, row, arm, side, entry);
      StopExactly(p, arm, side, entry, stop);
    }
    hide Candidate, StopFor, Opened, Enterable;
    if |Opened(t)| <= |Opened(s)| && c.Some? {
      var stop := StopFor(arm, c.value.0, c.value.1, p);
    }
  }

  /** An arm made on a bar that ends without a position replaces the one in hand; else the
      arm in hand stays until it is entered or has expired. */
  lemma ArmsFollow(p: Params, row: Row, a: Answers, i: nat, s: State)
    ensures var t := Step(p, row, a, i, s);
            && (t.open.None? && i >= p.warmup && a.arm.Some? ==> t.pending == a.arm)
            && (t.open.None? && !(i >= p.warmup && a.arm.Some?) && |Opened(t)| == |Opened(s)| && Unexpired(s, i) ==>
                  t.pending == s.pending)
            && (t.open.None? && t.pending.Some? ==> t.pending == a.arm || t.pending == s.pending)
  {
    hide Candidate, StopFor, Risk, StopTouched, CloseTrade, Cooldown, ExitAt, Opened;
    StepOpens(p, row, a, i, s);
    var m := Manage(p, row, a, i, NewDay(row, s));
    if m.open.None? {
      EnterKeepsArm(p, row, i, m);
      EnterOpens(p, row, i, m);
      SameOpened(Enter(p, row, i, m), Rearm(p, a, i, Enter(p, row, i, m)));
      ManageKeepsOpened(p, row, a, i, NewDay(row, s));
      SameOpened(NewDay(row, s), s);
    }
  }

  ghost predicate Unexpired(s: State, i: nat) {
    s.pending.Some? && i <= s.pending.value.barIndex + s.pending.value.expiresAfter
  }

  lemma ManageKeepsOpened(p: Params, row: Row, a: Answers, i: nat, s: State)
    ensures Opened(Manage(p, row, a, i, s)) == Opened(s)
  {
    hide ExitAt, Opened;
    if ExitAt(row, a).Some? {
      CloseKeepsOpened(p, s, ExitAt(row, a).value, i);
    }
  }

  lemma EnterKeepsArm(p: Params, row: Row, i: nat, s: State)
    requires s.open.None?
    ensures var e := Enter(p, row, i, s);
            && (e.pending == s.pending || e.pending.None?)
            && (Unexpired(s, i) && e.pending.None? ==> |Opened(e)| == |Opened(s)| + 1)
  {
    hide Candidate, StopFor, Risk, StopTouched, CloseTrade, Cooldown, Opened;
    EnterOpens(p, row, i, s);
  }
}
