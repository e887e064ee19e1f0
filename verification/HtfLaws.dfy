/** What every run of the continuation replay keeps, for arbitrary arms and exit
    decisions. */
module HtfLaws {
  import opened Common
  import opened HtfReplay

  // ---------- one trade ----------

  /** The position is the one its setup bar's arm calls for on its entry bar: the arm
      was the latest one, had not expired, and was made on a strictly earlier bar. */
  ghost predicate GoodEntry(p: Params, rows: seq<Row>, answers: seq<Answers>, o: Position)
    requires |rows| == |answers|
  {
    && p.warmup <= o.setupBar < o.entryBar < |rows|
    && answers[o.setupBar].arm.Some?
    && (forall b :: o.setupBar < b < o.entryBar ==> answers[b].arm.None?)
    && var arm := answers[o.setupBar].arm.value;
    && o.entryBar <= o.setupBar + arm.expiresAfter
    && rows[o.entryBar].ts >= p.evalStart && o.day == rows[o.entryBar].day
    && Candidate(rows[o.entryBar], arm, p) == Some((o.side, o.entry))
    && o.stop == StopFor(arm, o.side, o.entry, p)
    && o.stop > 0.0 && Risk(o.side, o.entry, o.stop) > 0.0
  }

  /** No exit was decided on the bars strictly between a and b. */
  ghost predicate Quiet(rows: seq<Row>, answers: seq<Answers>, a: nat, b: nat)
    requires b <= |rows| == |answers|
  {
    forall k :: a < k < b ==> ExitAt(rows[k], answers[k]).None?
  }

  /** The entry bar itself did not stop the position out. */
  ghost predicate Survived(p: Params, rows: seq<Row>, o: Position)
    requires o.entryBar < |rows|
  {
    p.proxy == Touch ==> !StopTouched(rows[o.entryBar], o.side, o.stop)
  }

  ghost predicate StoppedAtOnce(p: Params, rows: seq<Row>, t: Trade)
    requires t.position.entryBar < |rows|
  {
    && !Survived(p, rows, t.position)
    && t == CloseTrade(p, t.position, Decision(t.position.stop, "stop_same_bar_proxy"), t.position.entryBar)
  }

  ghost predicate Exited(p: Params, rows: seq<Row>, answers: seq<Answers>, t: Trade)
    requires t.position.entryBar < |rows| == |answers|
  {
    && Survived(p, rows, t.position)
    && t.position.entryBar < t.exitBar < |rows|
    && Quiet(rows, answers, t.position.entryBar, t.exitBar)
    && ExitAt(rows[t.exitBar], answers[t.exitBar]).Some?
    && t == CloseTrade(p, t.position, ExitAt(rows[t.exitBar], answers[t.exitBar]).value, t.exitBar)
  }

  ghost predicate RanOut(p: Params, rows: seq<Row>, answers: seq<Answers>, t: Trade)
    requires t.position.entryBar < |rows| == |answers|
  {
    && Survived(p, rows, t.position)
    && Quiet(rows, answers, t.position.entryBar, |rows|)
    && t == CloseTrade(p, t.position, Decision(rows[|rows| - 1].close, "end_of_data"), |rows| - 1)
  }

  /** A trade ends on its entry bar at the stop, on the first later bar with a
      decision, or with the data. */
  ghost predicate GoodTrade(p: Params, rows: seq<Row>, answers: seq<Answers>, t: Trade)
    requires |rows| == |answers|
  {
    && GoodEntry(p, rows, answers, t.position)
    && t.position.entryBar <= t.exitBar < |rows|
    && (StoppedAtOnce(p, rows, t) || Exited(p, rows, answers, t) || RanOut(p, rows, answers, t))
  }

  // ---------- the ledger ----------

  /** A position set up and entered after every trade so far, and past its cooldown. */
  ghost predicate After(p: Params, trades: seq<Trade>, o: Position) {
    forall k :: 0 <= k < |trades| ==> trades[k].exitBar <= o.setupBar && Cooldown(p, trades[k]) <= o.entryBar
  }

  ghost predicate Chain(p: Params, trades: seq<Trade>) {
    forall j, k :: 0 <= j < k < |trades| ==>
      trades[j].exitBar <= trades[k].position.setupBar && Cooldown(p, trades[j]) <= trades[k].position.entryBar
  }

  ghost predicate Booked(p: Params, rows: seq<Row>, answers: seq<Answers>, n: nat, trades: seq<Trade>)
    requires |rows| == |answers|
  {
    && (forall k :: 0 <= k < |trades| ==> GoodTrade(p, rows, answers, trades[k]) && trades[k].exitBar < n)
    && Chain(p, trades)
  }

  ghost predicate Holding(p: Params, rows: seq<Row>, answers: seq<Answers>, n: nat, s: State)
    requires n <= |rows| == |answers|
  {
    s.open.Some? ==>
      && GoodEntry(p, rows, answers, s.open.value)
      && s.open.value.entryBar < n
      && Survived(p, rows, s.open.value)
      && Quiet(rows, answers, s.open.value.entryBar, n)
      && After(p, s.trades, s.open.value)
  }

  ghost predicate Cooling(p: Params, s: State) {
    s.cooldownUntil == if s.trades == [] then -1 else Cooldown(p, s.trades[|s.trades| - 1])
  }

  /** The pending arm is the latest one and was made after every closed trade. */
  ghost predicate Waiting(p: Params, answers: seq<Answers>, n: nat, s: State)
    requires n <= |answers|
  {
    s.pending.Some? ==>
      && s.open.None?
      && var a := s.pending.value;
      && p.warmup <= a.barIndex < n && answers[a.barIndex].arm == Some(a)
      && (forall b :: a.barIndex < b < n ==> answers[b].arm.None?)
      && forall k :: 0 <= k < |s.trades| ==> s.trades[k].exitBar <= a.barIndex
  }

  ghost predicate Ledger(p: Params, rows: seq<Row>, answers: seq<Answers>, n: nat, s: State)
    requires n <= |rows| == |answers|
  {
    Booked(p, rows, answers, n, s.trades) && Holding(p, rows, answers, n, s) && Cooling(p, s)
  }

  lemma BookedGrows(p: Params, rows: seq<Row>, answers: seq<Answers>, n: nat, trades: seq<Trade>, t: Trade)
    requires |rows| == |answers|
    requires Booked(p, rows, answers, n, trades) && n <= t.exitBar + 1
    requires GoodTrade(p, rows, answers, t) && After(p, trades, t.position)
    ensures Booked(p, rows, answers, t.exitBar + 1, trades + [t])
  {
    hide GoodTrade, Cooldown;
  }

  lemma CloseLedger(p: Params, rows: seq<Row>, answers: seq<Answers>, n: nat, s: State, d: Decision, i: nat)
    requires n <= i + 1 <= |rows| == |answers| && s.open.Some?
    requires Booked(p, rows, answers, n, s.trades) && After(p, s.trades, s.open.value)
    requires GoodTrade(p, rows, answers, CloseTrade(p, s.open.value, d, i))
    ensures Ledger(p, rows, answers, i + 1, CloseOpen(p, s, d, i))
  {
    hide GoodTrade, After, Booked, Cooldown;
    BookedGrows(p, rows, answers, n, s.trades, CloseTrade(p, s.open.value, d, i));
  }

  lemma ManageKeeps(p: Params, rows: seq<Row>, answers: seq<Answers>, i: nat, s: State)
    requires i < |rows| == |answers|
    requires Ledger(p, rows, answers, i, s) && Waiting(p, answers, i, s)
    ensures var m := Manage(p, rows[i], answers[i], i, s);
            Ledger(p, rows, answers, i + 1, m) && Waiting(p, answers, i, m)
  {
    hide GoodEntry, After, Chain, Cooldown, ExitAt, StopTouched;
    if s.open.Some? {
      var exit := ExitAt(rows[i], answers[i]);
      if exit.Some? {
        assert Exited(p, rows, answers, CloseTrade(p, s.open.value, exit.value, i));
        CloseLedger(p, rows, answers, i, s, exit.value, i);
      }
    }
  }

  lemma NewDayKeeps(p: Params, rows: seq<Row>, answers: seq<Answers>, i: nat, s: State)
    requires i < |rows| == |answers|
    requires Ledger(p, rows, answers, i, s) && Waiting(p, answers, i, s)
    ensures Ledger(p, rows, answers, i, NewDay(rows[i], s)) && Waiting(p, answers, i, NewDay(rows[i], s))
  {
    hide GoodEntry, After, Booked, Cooldown, Quiet, Survived;
  }

  /** The last trade's cooldown covers the earlier ones: each of them ended before
      the last one was entered. */
  lemma CooledDown(p: Params, rows: seq<Row>, answers: seq<Answers>, i: nat, s: State, o: Position)
    requires i < |rows| == |answers|
    requires Booked(p, rows, answers, i + 1, s.trades) && Cooling(p, s)
    requires s.cooldownUntil <= i && o.entryBar == i
    requires forall k :: 0 <= k < |s.trades| ==> s.trades[k].exitBar <= o.setupBar
    ensures After(p, s.trades, o)
  {
    hide Cooldown, GoodEntry, StoppedAtOnce, Exited, RanOut;
    forall k | 0 <= k < |s.trades| ensures Cooldown(p, s.trades[k]) <= i {
      var last := |s.trades| - 1;
      if k < last {
        assert Cooldown(p, s.trades[k]) <= s.trades[last].position.entryBar;
        assert GoodTrade(p, rows, answers, s.trades[last]);
      }
    }
  }

  lemma EnterAtKeeps(p: Params, rows: seq<Row>, answers: seq<Answers>, i: nat, s: State, side: Side, entry: Price,
                     stop: real)
    requires i < |rows| == |answers|
    requires Ledger(p, rows, answers, i + 1, s) && s.pending.Some?
    requires var pos := Position(side, entry, stop, i, s.pending.value.barIndex, rows[i].day);
             GoodEntry(p, rows, answers, pos) && After(p, s.trades, pos)
    ensures Ledger(p, rows, answers, i + 1, EnterAt(p, rows[i], i, s, side, entry, stop))
  {
    hide GoodEntry, After, Booked, Cooldown, StopTouched;
    var pos := Position(side, entry, stop, i, s.pending.value.barIndex, rows[i].day);
    if p.proxy == Touch && StopTouched(rows[i], side, stop) {
      var entered := s.(open := Some(pos), fires := s.fires + 1, pending := None);
      var d := Decision(stop, "stop_same_bar_proxy");
      assert StoppedAtOnce(p, rows, CloseTrade(p, pos, d, i));
      CloseLedger(p, rows, answers, i + 1, entered, d, i);
    }
  }

  lemma EnterKeeps(p: Params, rows: seq<Row>, answers: seq<Answers>, i: nat, s: State)
    requires i < |rows| == |answers| && s.open.None?
    requires Ledger(p, rows, answers, i + 1, s) && Waiting(p, answers, i, s)
    ensures var e := Enter(p, rows[i], i, s);
            Ledger(p, rows, answers, i + 1, e) && Waiting(p, answers, i, e)
  {
    hide Booked, Cooldown, StopFor, Risk, Candidate, Quiet, Survived, CloseTrade;
    var e := Enter(p, rows[i], i, s);
    if s.pending.Some? && e.pending.None? && i <= s.pending.value.barIndex + s.pending.value.expiresAfter {
      var arm := s.pending.value;
      var c := Candidate(rows[i], arm, p);
      var stop := StopFor(arm, c.value.0, c.value.1, p);
      var pos := Position(c.value.0, c.value.1, stop, i, arm.barIndex, rows[i].day);
      CooledDown(p, rows, answers, i, s, pos);
      EnterAtKeeps(p, rows, answers, i, s, c.value.0, c.value.1, stop);
    }
  }

  lemma RearmKeeps(p: Params, rows: seq<Row>, answers: seq<Answers>, i: nat, s: State)
    requires i < |rows| == |answers| && ValidAnswers(answers)
    requires Ledger(p, rows, answers, i + 1, s) && Waiting(p, answers, i, s)
    ensures var r := Rearm(p, answers[i], i, s);
            Ledger(p, rows, answers, i + 1, r) && Waiting(p, answers, i + 1, r)
  {
    hide GoodEntry, After, Chain, Cooldown, Quiet, Survived, GoodTrade;
  }

  lemma StepKeeps(p: Params, rows: seq<Row>, answers: seq<Answers>, i: nat, s: State)
    requires i < |rows| == |answers| && ValidAnswers(answers)
    requires Ledger(p, rows, answers, i, s) && Waiting(p, answers, i, s)
    ensures var t := Step(p, rows[i], answers[i], i, s);
            Ledger(p, rows, answers, i + 1, t) && Waiting(p, answers, i + 1, t)
  {
    NewDayKeeps(p, rows, answers, i, s);
    var d := NewDay(rows[i], s);
    ManageKeeps(p, rows, answers, i, d);
    var m := Manage(p, rows[i], answers[i], i, d);
    if m.open.Some? {
      StillWaiting(p, answers, i, m);
    } else {
      EnterKeeps(p, rows, answers, i, m);
      RearmKeeps(p, rows, answers, i, Enter(p, rows[i], i, m));
    }
    hide NewDay, Manage, Enter, Rearm, Ledger, Waiting, ValidAnswers;
  }

  lemma StillWaiting(p: Params, answers: seq<Answers>, i: nat, s: State)
    requires i < |answers| && s.open.Some? && Waiting(p, answers, i, s)
    ensures Waiting(p, answers, i + 1, s)
  {
  }

  /** A pending arm and an open position never coexist; every trade is the one its
      arm and the exit decisions call for; entries respect the cooldowns; the
      arms that fired are strictly later than the trades before them. */
  lemma {:induction false} RunKeepsLedger(p: Params, rows: seq<Row>, answers: seq<Answers>, n: nat)
    requires n <= |rows| == |answers| && ValidAnswers(answers)
    ensures var s := Run(p, rows, answers, n);
            && (s.pending.None? || s.open.None?)
            && Ledger(p, rows, answers, n, s) && Waiting(p, answers, n, s)
  {
    hide Step;
    if n > 0 {
      RunKeepsLedger(p, rows, answers, n - 1);
      StepKeeps(p, rows, answers, n - 1, Run(p, rows, answers, n - 1));
    }
  }

  lemma TradesBooked(p: Params, rows: seq<Row>, answers: seq<Answers>)
    requires |rows| == |answers| && ValidAnswers(answers)
    ensures Booked(p, rows, answers, |rows|, Trades(p, rows, answers))
  {
    hide Run, ValidAnswers, GoodEntry, Quiet, Survived, After, Booked;
    RunKeepsLedger(p, rows, answers, |rows|);
    var s := Run(p, rows, answers, |rows|);
    if s.open.Some? {
      var d := Decision(rows[|rows| - 1].close, "end_of_data");
      assert RanOut(p, rows, answers, CloseTrade(p, s.open.value, d, |rows| - 1));
      CloseLedger(p, rows, answers, |rows|, s, d, |rows| - 1);
    }
  }

  /** Each arm is consumed at most once, and never one made before the previous
      position was out. */
  lemma ArmsConsumedOnce(p: Params, rows: seq<Row>, answers: seq<Answers>, j: nat, k: nat)
    requires |rows| == |answers| && ValidAnswers(answers)
    requires j < k < |Trades(p, rows, answers)|
    ensures var t, u := Trades(p, rows, answers)[j], Trades(p, rows, answers)[k];
            && t.position.setupBar < t.position.entryBar <= t.exitBar <= u.position.setupBar < u.position.entryBar
            && u.position.entryBar >= Cooldown(p, t)
  {
    TradesBooked(p, rows, answers);
    hide Trades, ValidAnswers, StoppedAtOnce, Exited, RanOut, Cooldown;
    var trades := Trades(p, rows, answers);
    assert GoodTrade(p, rows, answers, trades[j]) && GoodTrade(p, rows, answers, trades[k]);
  }

  // ---------- every position becomes exactly one trade ----------

  function Positions(trades: seq<Trade>): (s: seq<Position>)
    ensures |s| == |trades| && forall k :: 0 <= k < |s| ==> s[k] == trades[k].position
  {
    seq(|trades|, k requires 0 <= k < |trades| => trades[k].position)
  }

  /** All positions opened so far, in order. */
  function Opened(s: State): seq<Position> {
    Positions(s.trades) + if s.open.Some? then [s.open.value] else []
  }

  lemma CloseKeepsOpened(p: Params, s: State, d: Decision, i: nat)
    ensures Opened(CloseOpen(p, s, d, i)) == Opened(s)
  {
    hide Cooldown, GrossBps;
    if s.open.Some? {
      var t := CloseTrade(p, s.open.value, d, i);
      assert Positions(s.trades + [t]) == Positions(s.trades) + [s.open.value];
    }
  }

  /** A bar opens at most one position, none while one is held, and only under the
      day's allowance; closing neither loses nor repeats one. */
  lemma StepOpens(p: Params, row: Row, a: Answers, i: nat, s: State)
    ensures var t := Step(p, row, a, i, s);
            var day := NewDay(row, s);
            && t.day == Some(row.day)
            && (|| (Opened(t) == Opened(s) && t.fires == day.fires)
                || (&& |Opened(t)| == |Opened(s)| + 1 && Opened(t)[..|Opened(s)|] == Opened(s)
                    && Opened(t)[|Opened(s)|].day == row.day
                    && t.fires == day.fires + 1 && day.fires < p.maxFires))
  {
    hide Candidate, StopFor, Risk, StopTouched, CloseTrade, Cooldown, ExitAt, Opened;
    var day := NewDay(row, s);
    var m := Manage(p, row, a, i, day);
    assert Opened(day) == Opened(s) by {
      SameOpened(day, s);
    }
    assert Opened(m) == Opened(day) by {
      if ExitAt(row, a).Some? {
        CloseKeepsOpened(p, day, ExitAt(row, a).value, i);
      }
    }
    if m.open.None? {
      EnterOpens(p, row, i, m);
      var e := Enter(p, row, i, m);
      SameOpened(Rearm(p, a, i, e), e);
    }
  }

  lemma SameOpened(s: State, t: State)
    requires s.trades == t.trades && s.open == t.open
    ensures Opened(s) == Opened(t)
  {
  }

  lemma EnterOpens(p: Params, row: Row, i: nat, s: State)
    requires s.open.None?
    ensures var e := Enter(p, row, i, s);
            && e.day == s.day
            && (|| (Opened(e) == Opened(s) && e.fires == s.fires)
                || (&& |Opened(e)| == |Opened(s)| + 1 && Opened(e)[..|Opened(s)|] == Opened(s)
                    && Opened(e)[|Opened(s)|].day == row.day
                    && e.fires == s.fires + 1 && s.fires < p.maxFires))
  {
    hide Candidate, StopFor, Risk, StopTouched, CloseTrade, Cooldown;
    var e := Enter(p, row, i, s);
    if s.pending.Some? && e.fires != s.fires {
      var c := Candidate(row, s.pending.value, p);
      var stop := StopFor(s.pending.value, c.value.0, c.value.1, p);
      var pos := Position(c.value.0, c.value.1, stop, i, s.pending.value.barIndex, row.day);
      var entered := s.(open := Some(pos), fires := s.fires + 1, pending := None);
      assert Opened(entered) == Opened(s) + [pos];
      CloseKeepsOpened(p, entered, Decision(stop, "stop_same_bar_proxy"), i);
    }
  }

  lemma {:induction false} OpenedGrows(p: Params, rows: seq<Row>, answers: seq<Answers>, m: nat, n: nat)
    requires m <= n <= |rows| == |answers|
    ensures Opened(Run(p, rows, answers, m)) <= Opened(Run(p, rows, answers, n))
    decreases n
  {
    hide Step, Opened, NewDay;
    if m < n {
      OpenedGrows(p, rows, answers, m, n - 1);
      StepOpens(p, rows[n - 1], answers[n - 1], n - 1, Run(p, rows, answers, n - 1));
    }
  }

  /** Every position ever open ends as exactly one trade, in the order of entry, and
      every trade was such a position. */
  lemma OneTradePerPosition(p: Params, rows: seq<Row>, answers: seq<Answers>, n: nat)
    requires n <= |rows| == |answers|
    ensures Positions(Trades(p, rows, answers)) == Opened(Run(p, rows, answers, |rows|))
    ensures Opened(Run(p, rows, answers, n)) <= Positions(Trades(p, rows, answers))
  {
    hide Run;
    OpenedGrows(p, rows, answers, n, |rows|);
    var s := Run(p, rows, answers, |rows|);
    if rows != [] {
      CloseKeepsOpened(p, s, Decision(rows[|rows| - 1].close, "end_of_data"), |rows| - 1);
    } else {
      RunStart(p, rows, answers);
    }
  }

  // ---------- entries per day ----------

  function OnDay(positions: seq<Position>, d: int): nat {
    if positions == [] then 0
    else OnDay(positions[..|positions| - 1], d) + if positions[|positions| - 1].day == d then 1 else 0
  }

  ghost predicate DaysInOrder(rows: seq<Row>) {
    forall j, k :: 0 <= j < k < |rows| ==> rows[j].day <= rows[k].day
  }

  function Allowance(p: Params): nat {
    if p.maxFires > 0 then p.maxFires else 0
  }

  ghost predicate Rationed(p: Params, s: State) {
    && (forall d :: OnDay(Opened(s), d) <= Allowance(p))
    && (s.day.None? ==> Opened(s) == [])
    && (s.day.Some? ==>
          && s.fires == OnDay(Opened(s), s.day.value)
          && forall d :: d > s.day.value ==> OnDay(Opened(s), d) == 0)
  }

  lemma StepRations(p: Params, row: Row, a: Answers, i: nat, s: State)
    requires Rationed(p, s) && (s.day.Some? ==> s.day.value <= row.day)
    ensures Rationed(p, Step(p, row, a, i, s))
  {
    hide Opened, Step;
    StepOpens(p, row, a, i, s);
    var t := Step(p, row, a, i, s);
    var added := if Opened(t) == Opened(s) then 0 else 1;
    forall d ensures OnDay(Opened(t), d) == OnDay(Opened(s), d) + if d == row.day then added else 0 {
      if Opened(t) != Opened(s) {
        assert Opened(t)[..|Opened(t)| - 1] == Opened(s);
      }
    }
    assert NewDay(row, s).fires == OnDay(Opened(s), row.day);
  }

  lemma {:induction false} RunRations(p: Params, rows: seq<Row>, answers: seq<Answers>, n: nat)
    requires n <= |rows| == |answers| && DaysInOrder(rows)
    ensures Rationed(p, Run(p, rows, answers, n))
    ensures Run(p, rows, answers, n).day == if n == 0 then None else Some(rows[n - 1].day)
  {
    hide Step, Opened;
    if n > 0 {
      hide Rationed;
      RunRations(p, rows, answers, n - 1);
      StepRations(p, rows[n - 1], answers[n - 1], n - 1, Run(p, rows, answers, n - 1));
      StepOpens(p, rows[n - 1], answers[n - 1], n - 1, Run(p, rows, answers, n - 1));
    } else {
      assert Opened(INITIAL) == [] by {
        NothingOpened();
      }
    }
  }

  lemma NothingOpened()
    ensures Opened(INITIAL) == []
  {
  }

  /** No UTC date sees more entries than the daily allowance. */
  lemma DailyAllowance(p: Params, rows: seq<Row>, answers: seq<Answers>, d: int)
    requires |rows| == |answers| && DaysInOrder(rows)
    ensures OnDay(Positions(Trades(p, rows, answers)), d) <= Allowance(p)
  {
    hide Run, DaysInOrder, Trades;
    RunRations(p, rows, answers, |rows|);
    OneTradePerPosition(p, rows, answers, |rows|);
  }
}
