/** The squeeze and hybrid replays: incremental VWAP sums, a sliding rank window and
    an episode counter feed arms to a trigger that fires once per episode. What the
    trigger's other gates and the exit engine answer is arbitrary. */
module SqueezeWindows {
  import opened Columns
  import opened Common

  const COMPRESSION_BARS := 48
  const RANK_LOOKBACK := 2016
  const COMPRESSION_THRESHOLD := 0.20
  const VOL_LOOKBACK := 48
  const ATR_PERIOD := 48
  const VWAP_BARS := 288
  const IGNITION_BODY_FRAC := 0.60
  const IGNITION_VOL_MULT := 2.5
  const IGNITION_BOX_BARS := 24

  /** The first bar with a range to rank, and the first with a full rank window. */
  const FIRST_SPAN := COMPRESSION_BARS + 1
  const FIRST_RANK := FIRST_SPAN + RANK_LOOKBACK - 1

  // ---------- windows by definition ----------

  function Notionals(bars: seq<Bar>): (s: seq<real>)
    ensures |s| == |bars| && forall k :: 0 <= k < |s| ==> s[k] == Times(bars[k].close, bars[k].volume)
  {
    seq(|bars|, k requires 0 <= k < |bars| => Times(bars[k].close, bars[k].volume))
  }

  function VwapStart(i: nat): nat {
    if i > VWAP_BARS then i - VWAP_BARS else 0
  }

  /** The sum over the at most VWAP_BARS bars before i. */
  function PriorSum(s: seq<real>, i: nat): real
    requires i <= |s|
  {
    Sum(s[VwapStart(i)..i])
  }

  function VwapAt(bars: seq<Bar>, i: nat): Option<real>
    requires i <= |bars|
  {
    var volume := PriorSum(Volumes(bars), i);
    if volume > 0.0 then Some(PriorSum(Notionals(bars), i) / volume) else None
  }

  function BoxHigh(bars: seq<Bar>, n: nat, i: nat): real
    requires 0 < n <= i <= |bars|
  {
    MaxOf(Highs(bars)[i - n..i])
  }

  function BoxLow(bars: seq<Bar>, n: nat, i: nat): real
    requires 0 < n <= i <= |bars|
  {
    MinOf(Lows(bars)[i - n..i])
  }

  function Span(bars: seq<Bar>, i: nat): real
    requires FIRST_SPAN <= i < |bars| && Priced(bars)
  {
    (BoxHigh(bars, COMPRESSION_BARS, i) - BoxLow(bars, COMPRESSION_BARS, i)) / bars[i - 1].close
  }

  function RankStart(i: nat): (k: nat)
    requires i >= FIRST_SPAN
    ensures FIRST_SPAN <= k <= i
  {
    if i >= FIRST_RANK then i - (RANK_LOOKBACK - 1) else FIRST_SPAN
  }

  /** The latest at most RANK_LOOKBACK spans, oldest first. */
  function RankWindow(bars: seq<Bar>, i: nat): (s: seq<real>)
    requires FIRST_SPAN <= i < |bars| && Priced(bars)
    ensures |s| == i + 1 - RankStart(i)
    ensures forall k :: 0 <= k < |s| ==> s[k] == Span(bars, RankStart(i) + k)
  {
    seq(i + 1 - RankStart(i), k requires 0 <= k < i + 1 - RankStart(i) => Span(bars, RankStart(i) + k))
  }

  function CountBelow(s: seq<real>, x: real): nat {
    if s == [] then 0 else CountBelow(s[..|s| - 1], x) + if s[|s| - 1] < x then 1 else 0
  }

  predicate RankedLow(window: seq<real>, span: real) {
    CountBelow(window, span) as real / RANK_LOOKBACK as real <= COMPRESSION_THRESHOLD
  }

  predicate Compressed(bars: seq<Bar>, i: nat)
    requires i < |bars| && Priced(bars)
  {
    i >= FIRST_RANK && RankedLow(RankWindow(bars, i), Span(bars, i))
  }

  /** The number of bars up to i on which compression began. */
  function Episode(bars: seq<Bar>, i: nat): nat
    requires i < |bars| && Priced(bars)
  {
    if i == 0 then 0
    else Episode(bars, i - 1) + if Compressed(bars, i) && !Compressed(bars, i - 1) then 1 else 0
  }

  function AtrBefore(bars: seq<Bar>, i: nat): real
    requires ATR_PERIOD < i <= |bars|
  {
    Sum(TrueRanges(bars, i - ATR_PERIOD, i)) / ATR_PERIOD as real
  }

  function VolumeBefore(bars: seq<Bar>, i: nat): real
    requires VOL_LOOKBACK <= i <= |bars|
  {
    Sum(Volumes(bars)[i - VOL_LOOKBACK..i]) / VOL_LOOKBACK as real
  }

  // ---------- sliding them ----------

  lemma SumTail(s: seq<real>)
    requires s != []
    ensures Sum(s) == s[0] + Sum(s[1..])
  {
    assert s == [s[0]] + s[1..];
    SumAppend([s[0]], s[1..]);
    assert Sum([s[0]]) == Sum([s[0]][..0]) + s[0];
  }

  /** Adding the newest term and dropping the one that left keeps the exact sum. */
  lemma SumSlides(s: seq<real>, i: nat)
    requires 0 < i <= |s|
    ensures PriorSum(s, i)
         == PriorSum(s, i - 1) + s[i - 1] - (if i - 1 >= VWAP_BARS then s[i - 1 - VWAP_BARS] else 0.0)
  {
    var from := VwapStart(i - 1);
    var longer := s[from..i];
    assert longer[..|longer| - 1] == s[from..i - 1];
    assert Sum(longer) == PriorSum(s, i - 1) + s[i - 1];
    if i - 1 >= VWAP_BARS {
      SumTail(longer);
      assert longer[1..] == s[from + 1..i];
    }
  }

  /** The update every replay makes at the top of bar i. */
  method Slide(bars: seq<Bar>, i: nat, pvSum: real, vSum: real) returns (pv: real, v: real)
    requires i < |bars|
    requires i == 0 ==> pvSum == vSum == 0.0
    requires i > 0 ==> pvSum == PriorSum(Notionals(bars), i - 1) && vSum == PriorSum(Volumes(bars), i - 1)
    ensures pv == PriorSum(Notionals(bars), i) && v == PriorSum(Volumes(bars), i)
  {
    pv, v := pvSum, vSum;
    if i >= 1 {
      hide PriorSum, Times;
      SumSlides(Notionals(bars), i);
      SumSlides(Volumes(bars), i);
      pv, v := pv + Times(bars[i - 1].close, bars[i - 1].volume), v + bars[i - 1].volume;
      if i - 1 >= VWAP_BARS {
        var k := i - 1 - VWAP_BARS;
        pv, v := pv - Times(bars[k].close, bars[k].volume), v - bars[k].volume;
      }
    }
  }

  /** Appending the newest span and popping the oldest of too many keeps exactly the
      latest ones. */
  method Rank(bars: seq<Bar>, i: nat, before: seq<real>) returns (window: seq<real>, span: real)
    requires FIRST_SPAN <= i < |bars| && Priced(bars)
    requires before == if i == FIRST_SPAN then [] else RankWindow(bars, i - 1)
    ensures window == RankWindow(bars, i) && span == Span(bars, i)
  {
    hide BoxHigh, BoxLow;
    span := (BoxHigh(bars, COMPRESSION_BARS, i) - BoxLow(bars, COMPRESSION_BARS, i)) / bars[i - 1].close;
    window := before + [span];
    if |window| > RANK_LOOKBACK {
      window := window[1..];
    }
    assert |window| == i + 1 - RankStart(i);
    forall k | 0 <= k < |window| ensures window[k] == Span(bars, RankStart(i) + k) {
    }
  }

  // ---------- the run ----------

  /** The squeeze replay, and the hybrid replay's three modes. */
  datatype Mode = Squeeze | Coil | Ignition | Hybrid

  datatype Kind = CoilArm | IgnitionArm

  datatype Arm = Arm(kind: Kind, episode: int, boxHigh: real, boxLow: real, compressed: bool, atr: real, volMean: real,
                     prevClose: real, vwap: Option<real>)

  /** A call made to the trigger. */
  datatype Offer = Offer(bar: nat, arm: Arm)

  /** How the trigger's gates after the episode latch settle a call. */
  datatype Reply = Rejected | ChaseBurned | Fired(side: Side, entry: Price)

  datatype Exit = Exit(price: real, reason: string)

  datatype Answers = Answers(exit: Option<Exit>, reply: Reply)

  datatype Position = Position(side: Side, entry: Price, bar: nat, kind: Kind, episode: int)

  datatype Trade = Trade(position: Position, exitBar: nat, exit: real, reason: string, held: int, netBps: real)

  /** latch is the trigger's last burned episode. */
  datatype State = State(open: Option<Position>, latch: Option<int>, offers: seq<Offer>, trades: seq<Trade>)

  const INITIAL := State(None, None, [], [])

  predicate Thrust(b: Bar, volMean: real) {
    && b.high - b.low > 0.0
    && Abs(b.close - b.open) >= IGNITION_BODY_FRAC * (b.high - b.low)
    && b.volume >= IGNITION_VOL_MULT * volMean
  }

  function CoilAt(bars: seq<Bar>, i: nat, episode: int, compressed: bool, vwap: Option<real>): Arm
    requires FIRST_SPAN <= i < |bars|
  {
    Arm(CoilArm, episode, BoxHigh(bars, COMPRESSION_BARS, i), BoxLow(bars, COMPRESSION_BARS, i), compressed,
        AtrBefore(bars, i), VolumeBefore(bars, i), bars[i - 1].close, vwap)
  }

  function IgnitionAt(bars: seq<Bar>, i: nat, vwap: Option<real>): Arm
    requires FIRST_SPAN <= i < |bars|
  {
    Arm(IgnitionArm, -(i + 1), BoxHigh(bars, IGNITION_BOX_BARS, i), BoxLow(bars, IGNITION_BOX_BARS, i), true,
        AtrBefore(bars, i), VolumeBefore(bars, i), bars[i - 1].close, vwap)
  }

  /** The arm offered on bar i, given the bar's compression state. */
  function ArmFor(bars: seq<Bar>, i: nat, start: int, mode: Mode, episode: int, compressed: bool, vwap: Option<real>)
    : Option<Arm>
    requires FIRST_SPAN <= i < |bars|
  {
    if bars[i].ts < start then None
    else if mode == Squeeze then Some(CoilAt(bars, i, episode, compressed, vwap))
    else if VolumeBefore(bars, i) <= 0.0 || AtrBefore(bars, i) <= 0.0 then None
    else if mode != Ignition && compressed then Some(CoilAt(bars, i, episode, true, vwap))
    else if mode != Coil && Thrust(bars[i], VolumeBefore(bars, i)) then Some(IgnitionAt(bars, i, vwap))
    else None
  }

  function ArmAt(bars: seq<Bar>, i: nat, start: int, mode: Mode): Option<Arm>
    requires FIRST_RANK <= i < |bars| && Priced(bars)
  {
    ArmFor(bars, i, start, mode, Episode(bars, i), Compressed(bars, i), VwapAt(bars, i))
  }

  function CloseTrade(p: Position, x: Exit, i: nat, fee: int -> real): Trade {
    var held := i - p.bar;
    var gross := (if p.side == Long then x.price / p.entry - 1.0 else 1.0 - x.price / p.entry) * 10000.0;
    Trade(p, i, x.price, x.reason, held, gross - fee(held))
  }

  /** An uncompressed arm or a burned episode is refused outright; otherwise the
      reply stands, and firing or chasing burns the episode. */
  function Offered(s: State, arm: Arm, reply: Reply, i: nat): State {
    var called := s.(offers := s.offers + [Offer(i, arm)]);
    if !arm.compressed || s.latch == Some(arm.episode) then called
    else
      match reply
      case Rejected => called
      case ChaseBurned => called.(latch := Some(arm.episode))
      case Fired(side, entry) =>
        called.(latch := Some(arm.episode), open := Some(Position(side, entry, i, arm.kind, arm.episode)))
  }

  function Step(bars: seq<Bar>, i: nat, start: int, mode: Mode, fee: int -> real, a: Answers, s: State): State
    requires i < |bars| && Priced(bars)
  {
    if i < FIRST_RANK then s
    else if s.open.Some? then
      if a.exit.None? then s
      else s.(trades := s.trades + [CloseTrade(s.open.value, a.exit.value, i, fee)], open := None)
    else
      var arm := ArmAt(bars, i, start, mode);
      if arm.None? then s else Offered(s, arm.value, a.reply, i)
  }

  function Run(bars: seq<Bar>, answers: seq<Answers>, start: int, mode: Mode, fee: int -> real, n: nat): State
    requires n <= |bars| == |answers| && Priced(bars)
  {
    if n == 0 then INITIAL
    else Step(bars, n - 1, start, mode, fee, answers[n - 1], Run(bars, answers, start, mode, fee, n - 1))
  }

  /** What the loop variables hold before bar i. */
  ghost predicate Slid(bars: seq<Bar>, i: nat, pv: real, v: real, window: seq<real>, episode: int, prev: bool)
    requires i <= |bars| && Priced(bars)
  {
    && (if i == 0 then pv == v == 0.0
        else pv == PriorSum(Notionals(bars), i - 1) && v == PriorSum(Volumes(bars), i - 1))
    && window == (if i <= FIRST_SPAN then [] else RankWindow(bars, i - 1))
    && episode == (if i == 0 then 0 else Episode(bars, i - 1))
    && prev == (i > 0 && Compressed(bars, i - 1))
  }

  lemma {:induction false} NoEpisodeEarly(bars: seq<Bar>, i: nat)
    requires i < |bars| && Priced(bars) && i < FIRST_RANK
    ensures Episode(bars, i) == 0 && !Compressed(bars, i)
  {
    if i > 0 {
      NoEpisodeEarly(bars, i - 1);
    }
  }

  /** The bookkeeping at the top of a bar, as both replays write it. */
  method Advance(bars: seq<Bar>, i: nat, pv: real, v: real, window: seq<real>, episode: int, prev: bool)
    returns (pv': real, v': real, window': seq<real>, episode': int, compressed: bool)
    requires i < |bars| && Priced(bars) && Slid(bars, i, pv, v, window, episode, prev)
    ensures Slid(bars, i + 1, pv', v', window', episode', compressed)
    ensures v' > 0.0 ==> VwapAt(bars, i) == Some(pv' / v')
    ensures v' <= 0.0 ==> VwapAt(bars, i) == None
  {
    hide PriorSum, Span, RankWindow, RankedLow, BoxHigh, BoxLow;
    pv', v' := Slide(bars, i, pv, v);
    window', episode', compressed := window, episode, prev;
    if i < FIRST_SPAN {
      NoEpisodeEarly(bars, i);
      return;
    }
    var span;
    window', span := Rank(bars, i, window);
    if |window'| < RANK_LOOKBACK {
      NoEpisodeEarly(bars, i);
      return;
    }
    compressed := RankedLow(window', span);
    if compressed && !prev {
      episode' := episode + 1;
    }
  }

  lemma RunNext(bars: seq<Bar>, answers: seq<Answers>, start: int, mode: Mode, fee: int -> real, i: nat)
    requires i < |bars| == |answers| && Priced(bars)
    ensures Run(bars, answers, start, mode, fee, i + 1)
         == Step(bars, i, start, mode, fee, answers[i], Run(bars, answers, start, mode, fee, i))
  {
    hide Step;
  }

  lemma RunStart(bars: seq<Bar>, answers: seq<Answers>, start: int, mode: Mode, fee: int -> real)
    requires |bars| == |answers| && Priced(bars)
    ensures Run(bars, answers, start, mode, fee, 0) == INITIAL && Slid(bars, 0, 0.0, 0.0, [], 0, false)
  {
  }

  lemma ArmIsArmAt(bars: seq<Bar>, i: nat, start: int, mode: Mode, pv: real, v: real, window: seq<real>, episode: int,
                   compressed: bool)
    requires FIRST_RANK <= i < |bars| && Priced(bars) && Slid(bars, i + 1, pv, v, window, episode, compressed)
    requires v > 0.0 ==> VwapAt(bars, i) == Some(pv / v)
    requires v <= 0.0 ==> VwapAt(bars, i) == None
    ensures ArmFor(bars, i, start, mode, episode, compressed, if v > 0.0 then Some(pv / v) else None)
         == ArmAt(bars, i, start, mode)
  {
    hide ArmFor, PriorSum, RankWindow, Compressed, VwapAt, Episode;
  }

  /** The squeeze replay; also returns the calls it made to the trigger. */
  method SqueezeReplay(bars: seq<Bar>, answers: seq<Answers>, start: int, fee: int -> real)
    returns (trades: seq<Trade>, offers: seq<Offer>)
    requires |bars| == |answers| && Priced(bars)
    ensures var s := Run(bars, answers, start, Squeeze, fee, |bars|);
            trades == s.trades && offers == s.offers
  {
    hide Run, Slid, ArmFor, CloseTrade, VwapAt, PriorSum, Compressed, Episode, ArmAt;
    var open: Option<Position>, latch: Option<int> := None, None;
    var episode, prev := 0, false;
    var window: seq<real>, pv, v := [], 0.0, 0.0;
    trades, offers := [], [];
    RunStart(bars, answers, start, Squeeze, fee);
    for i := 0 to |bars|
      invariant Slid(bars, i, pv, v, window, episode, prev)
      invariant Run(bars, answers, start, Squeeze, fee, i) == State(open, latch, offers, trades)
    {
      RunNext(bars, answers, start, Squeeze, fee, i);
      pv, v, window, episode, prev := Advance(bars, i, pv, v, window, episode, prev);
      if i < FIRST_RANK {
        continue;
      }
      if open.Some? {
        if answers[i].exit.Some? {
          trades, open := trades + [CloseTrade(open.value, answers[i].exit.value, i, fee)], None;
        }
        continue;
      }
      ArmIsArmAt(bars, i, start, Squeeze, pv, v, window, episode, prev);
      var arm := ArmFor(bars, i, start, Squeeze, episode, prev, if v > 0.0 then Some(pv / v) else None);
      if arm.None? {
        continue;
      }
      var s := Offered(State(open, latch, offers, trades), arm.value, answers[i].reply, i);
      open, latch, offers, trades := s.open, s.latch, s.offers, s.trades;
    }
  }

  /** The hybrid replay in one of its three modes. */
  method HybridReplay(bars: seq<Bar>, answers: seq<Answers>, start: int, mode: Mode, fee: int -> real)
    returns (trades: seq<Trade>, offers: seq<Offer>)
    requires |bars| == |answers| && Priced(bars) && mode != Squeeze
    ensures var s := Run(bars, answers, start, mode, fee, |bars|);
            trades == s.trades && offers == s.offers
  {
    hide Run, Slid, ArmFor, CloseTrade, VwapAt, PriorSum, Compressed, Episode, ArmAt;
    var open: Option<Position>, latch: Option<int> := None, None;
    var episode, prev := 0, false;
    var window: seq<real>, pv, v := [], 0.0, 0.0;
    trades, offers := [], [];
    RunStart(bars, answers, start, mode, fee);
    for i := 0 to |bars|
      invariant Slid(bars, i, pv, v, window, episode, prev)
      invariant Run(bars, answers, start, mode, fee, i) == State(open, latch, offers, trades)
    {
      RunNext(bars, answers, start, mode, fee, i);
      pv, v, window, episode, prev := Advance(bars, i, pv, v, window, episode, prev);
      if i < FIRST_RANK {
        continue;
      }
      if open.Some? {
        if answers[i].exit.Some? {
          trades, open := trades + [CloseTrade(open.value, answers[i].exit.value, i, fee)], None;
        }
        continue;
      }
      ArmIsArmAt(bars, i, start, mode, pv, v, window, episode, prev);
      var arm := ArmFor(bars, i, start, mode, episode, prev, if v > 0.0 then Some(pv / v) else None);
      if arm.None? {
        continue;
      }
      var s := Offered(State(open, latch, offers, trades), arm.value, answers[i].reply, i);
      open, latch, offers, trades := s.open, s.latch, s.offers, s.trades;
    }
  }
}
