/** The replay of the higher-timeframe continuation scanner: a pending arm, an open
    position and a cooldown, driven bar by bar. What the exit engine and the scanner
    answer on each bar is arbitrary. */
module HtfReplay {
  import opened Common

  datatype Proxy = Touch | Close

  datatype Arm = Arm(barIndex: nat, longLevel: Price, shortLevel: Price, atr: Price, allowLong: bool, allowShort: bool,
                     longStructural: Option<Price>, shortStructural: Option<Price>, expiresAfter: nat)

  /** One prepared row; day is the UTC date of its timestamp. */
  datatype Row = Row(ts: int, day: int, high: Price, low: Price, close: Price)

  datatype Decision = Decision(price: real, reason: string)

  /** The engines' answers on one bar: the exit engine's, the scanner's wish to
      leave, and the scanner's new arm. */
  datatype Answers = Answers(onBar: Option<Decision>, exitSignal: Option<string>, arm: Option<Arm>)

  datatype Params = Params(proxy: Proxy, evalStart: int, warmup: nat, maxChase: real, atrStopMult: real,
                           maxFires: int, cooldownWin: int, cooldownLoss: int, realizedCost: real, gateCost: real)

  datatype Position = Position(side: Side, entry: Price, stop: real, entryBar: nat, setupBar: nat, day: int)

  datatype Trade = Trade(position: Position, exit: real, exitBar: nat, held: int, reason: string,
                         grossBps: real, netRealizedBps: real, netGateBps: real)

  datatype State = State(pending: Option<Arm>, open: Option<Position>, cooldownUntil: int, day: Option<int>, fires: int,
                         trades: seq<Trade>)

  const INITIAL := State(None, None, -1, None, 0, [])

  /** Each arm names the bar it was made on. */
  ghost predicate ValidAnswers(answers: seq<Answers>) {
    forall k :: 0 <= k < |answers| && answers[k].arm.Some? ==> answers[k].arm.value.barIndex == k
  }

  // ---------- entries ----------

  function LongCandidate(row: Row, arm: Arm, p: Params): Option<Price> {
    if p.proxy == Touch && row.high > arm.longLevel then Some(arm.longLevel)
    else if p.proxy == Close && row.close > arm.longLevel
            && (row.close - arm.longLevel) / arm.longLevel * 10000.0 <= p.maxChase then Some(row.close)
    else None
  }

  function ShortCandidate(row: Row, arm: Arm, p: Params): Option<Price> {
    if p.proxy == Touch && row.low < arm.shortLevel then Some(arm.shortLevel)
    else if p.proxy == Close && row.close < arm.shortLevel
            && (arm.shortLevel - row.close) / arm.shortLevel * 10000.0 <= p.maxChase then Some(row.close)
    else None
  }

  function Candidate(row: Row, arm: Arm, p: Params): Option<(Side, Price)> {
    if arm.allowLong && LongCandidate(row, arm, p).Some? then Some((Long, LongCandidate(row, arm, p).value))
    else if arm.allowShort && ShortCandidate(row, arm, p).Some? then Some((Short, ShortCandidate(row, arm, p).value))
    else None
  }

  function StopFor(arm: Arm, side: Side, entry: real, p: Params): real {
    var distance := p.atrStopMult * arm.atr;
    if side == Long then
      if arm.longStructural.Some? then Min(entry - distance, arm.longStructural.value) else entry - distance
    else
      if arm.shortStructural.Some? then Max(entry + distance, arm.shortStructural.value) else entry + distance
  }

  function Risk(side: Side, entry: real, stop: real): real {
    if side == Long then entry - stop else stop - entry
  }

  predicate StopTouched(row: Row, side: Side, stop: real) {
    if side == Long then row.low <= stop else row.high >= stop
  }

  // ---------- one bar ----------

  function GrossBps(side: Side, entry: Price, price: real): real {
    (if side == Long then price / entry - 1.0 else 1.0 - price / entry) * 10000.0
  }

  function CloseTrade(p: Params, pos: Position, d: Decision, i: nat): Trade {
    var gross := GrossBps(pos.side, pos.entry, d.price);
    Trade(pos, d.price, i, i - pos.entryBar, d.reason, gross, gross - p.realizedCost, gross - p.gateCost)
  }

  function Cooldown(p: Params, t: Trade): int {
    t.exitBar + if t.netGateBps > 0.0 then p.cooldownWin else p.cooldownLoss
  }

  function CloseOpen(p: Params, s: State, d: Decision, i: nat): State {
    if s.open.None? then s
    else
      var t := CloseTrade(p, s.open.value, d, i);
      s.(trades := s.trades + [t], cooldownUntil := Cooldown(p, t), open := None)
  }

  function NewDay(row: Row, s: State): State {
    if s.day != Some(row.day) then s.(day := Some(row.day), fires := 0) else s
  }

  /** The exit engine's decision, or else the scanner's wish to leave at the close. */
  function ExitAt(row: Row, a: Answers): Option<Decision> {
    if a.onBar.Some? then a.onBar
    else if a.exitSignal.Some? then Some(Decision(row.close, a.exitSignal.value))
    else None
  }

  function Manage(p: Params, row: Row, a: Answers, i: nat, s: State): State {
    if s.open.Some? && ExitAt(row, a).Some? then CloseOpen(p, s, ExitAt(row, a).value, i) else s
  }

  function EnterAt(p: Params, row: Row, i: nat, s: State, side: Side, entry: Price, stop: real): State
    requires s.pending.Some?
  {
    var pos := Position(side, entry, stop, i, s.pending.value.barIndex, row.day);
    var entered := s.(open := Some(pos), fires := s.fires + 1, pending := None);
    if p.proxy == Touch && StopTouched(row, side, stop) then
      CloseOpen(p, entered, Decision(stop, "stop_same_bar_proxy"), i)
    else entered
  }

  function Enter(p: Params, row: Row, i: nat, s: State): State {
    if row.ts < p.evalStart || s.pending.None? then s
    else
      var arm := s.pending.value;
      if i > arm.barIndex + arm.expiresAfter then s.(pending := None)
      else if i <= arm.barIndex || i < s.cooldownUntil then s
      else
        var c := Candidate(row, arm, p);
        if c.None? || s.fires >= p.maxFires then s
        else
          var stop := StopFor(arm, c.value.0, c.value.1, p);
          if stop > 0.0 && Risk(c.value.0, c.value.1, stop) > 0.0 then EnterAt(p, row, i, s, c.value.0, c.value.1, stop)
          else s
  }

  function Rearm(p: Params, a: Answers, i: nat, s: State): State {
    if s.open.None? && i >= p.warmup && a.arm.Some? then s.(pending := a.arm) else s
  }

  function Step(p: Params, row: Row, a: Answers, i: nat, s: State): State {
    var managed := Manage(p, row, a, i, NewDay(row, s));
    if managed.open.Some? then managed else Rearm(p, a, i, Enter(p, row, i, managed))
  }

  function Run(p: Params, rows: seq<Row>, answers: seq<Answers>, n: nat): State
    requires n <= |rows| == |answers|
  {
    if n == 0 then INITIAL else Step(p, rows[n - 1], answers[n - 1], n - 1, Run(p, rows, answers, n - 1))
  }

  lemma RunStart(p: Params, rows: seq<Row>, answers: seq<Answers>)
    requires |rows| == |answers|
    ensures Run(p, rows, answers, 0) == INITIAL
  {
  }

  lemma RunNext(p: Params, rows: seq<Row>, answers: seq<Answers>, i: nat)
    requires i < |rows| == |answers|
    ensures Run(p, rows, answers, i + 1) == Step(p, rows[i], answers[i], i, Run(p, rows, answers, i))
  {
  }

  function Finish(p: Params, rows: seq<Row>, s: State): State {
    if s.open.Some? && rows != [] then
      CloseOpen(p, s, Decision(rows[|rows| - 1].close, "end_of_data"), |rows| - 1)
    else s
  }

  function Trades(p: Params, rows: seq<Row>, answers: seq<Answers>): seq<Trade>
    requires |rows| == |answers|
  {
    Finish(p, rows, Run(p, rows, answers, |rows|)).trades
  }

  method Replay(p: Params, rows: seq<Row>, answers: seq<Answers>) returns (trades: seq<Trade>)
    requires |rows| == |answers|
    ensures trades == Trades(p, rows, answers)
  {
    hide Candidate, StopFor, Risk, StopTouched, GrossBps, CloseTrade, Cooldown, ExitAt, Run;
    assert Run(p, rows, answers, 0) == INITIAL by {
      RunStart(p, rows, answers);
    }
    var pending: Option<Arm>, open: Option<Position> := None, None;
    var cooldownUntil := -1;
    var day: Option<int>, fires := None, 0;
    trades := [];
    for i := 0 to |rows|
      invariant Run(p, rows, answers, i) == State(pending, open, cooldownUntil, day, fires, trades)
    {
      var row, a := rows[i], answers[i];
      RunNext(p, rows, answers, i);
      if day != Some(row.day) {
        day, fires := Some(row.day), 0;
      }
      if open.Some? {
        var decision := ExitAt(row, a);
        if decision.Some? {
          var t := CloseTrade(p, open.value, decision.value, i);
          trades, cooldownUntil, open := trades + [t], Cooldown(p, t), None;
        }
        if open.Some? {
          continue;
        }
      }
      if row.ts >= p.evalStart && pending.Some? {
        var arm := pending.value;
        if i > arm.barIndex + arm.expiresAfter {
          pending := None;
        } else if i > arm.barIndex && i >= cooldownUntil {
          var c := Candidate(row, arm, p);
          if c.Some? && fires < p.maxFires {
            var side, entry := c.value.0, c.value.1;
            var stop := StopFor(arm, side, entry, p);
            if stop > 0.0 && Risk(side, entry, stop) > 0.0 {
              open := Some(Position(side, entry, stop, i, arm.barIndex, row.day));
              fires, pending := fires + 1, None;
              if p.proxy == Touch && StopTouched(row, side, stop) {
                var t := CloseTrade(p, open.value, Decision(stop, "stop_same_bar_proxy"), i);
                trades, cooldownUntil, open := trades + [t], Cooldown(p, t), None;
              }
            }
          }
        }
      }
      if open.None? && i >= p.warmup && a.arm.Some? {
        pending := a.arm;
      }
    }
    if open.Some? && rows != [] {
      var last := |rows| - 1;
      trades := trades + [CloseTrade(p, open.value, Decision(rows[last].close, "end_of_data"), last)];
    }
  }
}
