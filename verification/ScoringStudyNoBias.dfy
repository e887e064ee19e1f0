/** The run over a mirrored tape: every event appears with its side turned around,
    and with the same features and scores. */
module ScoringStudyNoBias {
  import opened Common
  import opened Indicators
  import opened HourlyContext
  import opened ScoringStudy
  import opened ScoringStudyMirror
  import Laws = ScoringStudyLaws

  function MirrorAnchor(c: real, a: Anchor): Anchor {
    a.(price := c - a.price, rsi := Minus(100.0, a.rsi))
  }

  function MirrorAnchors(c: real, s: seq<Anchor>): (m: seq<Anchor>)
    ensures |m| == |s| && forall k :: 0 <= k < |m| ==> m[k] == MirrorAnchor(c, s[k])
  {
    seq(|s|, k requires 0 <= k < |s| => MirrorAnchor(c, s[k]))
  }

  function MirrorGap(c: real, g: Option<Gap>): Option<Gap> {
    if g.Some? then Some(Gap(c - g.value.high, c - g.value.low, g.value.created)) else None
  }

  function MirrorEvent(c: real, e: Event): Event {
    e.(side := Opposite(e.side), context := MirrorContext(e.context),
       lo := MirrorAnchors(c, e.hi), hi := MirrorAnchors(c, e.lo))
  }

  function MirrorEvents(c: real, s: seq<Event>): (m: seq<Event>)
    ensures |m| == |s| && forall k :: 0 <= k < |m| ==> m[k] == MirrorEvent(c, s[k])
  {
    seq(|s|, k requires 0 <= k < |s| => MirrorEvent(c, s[k]))
  }

  /** Lows and highs, upward and downward gaps, longs and shorts have changed places. */
  ghost predicate Anchored(c: real, s: State, t: State) {
    && t.lo == MirrorAnchors(c, s.hi) && t.hi == MirrorAnchors(c, s.lo)
    && t.up == MirrorGap(c, s.down) && t.down == MirrorGap(c, s.up)
  }

  ghost predicate UsedAlike(s: State, t: State) {
    forall side, hash :: (Opposite(side), hash) in t.used <==> (side, hash) in s.used
  }

  ghost predicate Mirrors(c: real, s: State, t: State) {
    && Anchored(c, s, t) && UsedAlike(s, t)
    && t.events == MirrorEvents(c, s.events)
    && t.invalid == s.invalid && t.warmup == s.warmup
  }

  // ---------- detectors ----------

  lemma StructureMirror(c: real, lo: seq<Anchor>, hi: seq<Anchor>)
    ensures Structure(MirrorAnchors(c, hi), MirrorAnchors(c, lo))
         == if Structure(lo, hi).Some? then Some(Opposite(Structure(lo, hi).value)) else None
  {
  }

  lemma CrossesMirror(c: real, side: Side, before: real, now: real, level: real)
    ensures Crosses(Opposite(side), c - before, c - now, c - level) <==> Crosses(side, before, now, level)
  {
  }

  lemma RangeMirror(c: real, d: Decision)
    requires |d.prior| == 20
    ensures RangeHigh(MirrorDecision(c, d)) == c - RangeLow(d) && RangeLow(MirrorDecision(c, d)) == c - RangeHigh(d)
  {
    ExtremesMirror(c, d.prior, 0, 20);
    WholeRange(d);
    WholeRange(MirrorDecision(c, d));
    hide RangeHigh, RangeLow, LowOf, HighOf;
  }

  lemma WholeRange(d: Decision)
    requires |d.prior| == 20
    ensures RangeHigh(d) == HighOf(d.prior, 0, 20) && RangeLow(d) == LowOf(d.prior, 0, 20)
  {
    hide MinOf, MaxOf;
    assert SlotHighs(d.prior)[0..20] == SlotHighs(d.prior);
    assert SlotLows(d.prior)[0..20] == SlotLows(d.prior);
  }

  lemma OuterMirror(c: real, side: Side, r: Slot)
    ensures OuterClose(Opposite(side), MirrorSlot(c, r)) <==> OuterClose(side, r)
  {
    var m := MirrorSlot(c, r);
    assert m.high - m.low == r.high - r.low;
    assert m.close - m.low == r.high - r.close && m.high - m.close == r.close - r.low;
  }

  lemma BreakMirror(c: real, s: State, t: State, d: Decision, r: Slot, side: Side)
    requires Anchored(c, s, t) && UsedAlike(s, t)
    ensures BreakOf(t, MirrorDecision(c, d), MirrorSlot(c, r), Opposite(side)) == BreakOf(s, d, r, side)
  {
    hide Crosses, Structure;
    StructureMirror(c, s.lo, s.hi);
    var anchors := if side == Long then s.hi else s.lo;
    if anchors != [] {
      CrossesMirror(c, side, d.p.close, r.close, anchors[|anchors| - 1].price);
    }
  }

  lemma FiresMirror(c: real, family: Family, s: State, t: State, d: Decision, r: Slot, side: Side)
    requires |d.prior| == 20 && Anchored(c, s, t) && UsedAlike(s, t)
    ensures Fires(family, t, MirrorDecision(c, d), MirrorSlot(c, r), Opposite(side)) <==> Fires(family, s, d, r, side)
  {
    hide RangeHigh, RangeLow, OuterClose, Structure, BreakOf, UsedAlike, Crosses;
    RangeMirror(c, d);
    match family {
      case Breakout20 =>
        CrossesMirror(c, side, d.p.close, r.close, if side == Long then RangeHigh(d) else RangeLow(d));
      case WickReversal20 =>
        OuterMirror(c, side, r);
      case Ema20Reclaim =>
      case Bos3 =>
        StructureMirror(c, s.lo, s.hi);
        BreakMirror(c, s, t, d, r, side);
      case Choch3 =>
        StructureMirror(c, s.lo, s.hi);
        BreakMirror(c, s, t, d, r, side);
    }
  }

  // ---------- features ----------

  lemma TouchMirror(c: real, d: Decision, r: Slot, side: Side, level: Option<real>)
    ensures Touch(MirrorDecision(c, d), MirrorSlot(c, r), Opposite(side), Minus(c, level)) <==> Touch(d, r, side, level)
  {
  }

  lemma EdgeMirror(c: real, d: Decision, side: Side, family: Family)
    requires |d.prior| == 20
    ensures TouchedEdge(MirrorDecision(c, d), Opposite(side), family) == c - TouchedEdge(d, side, family)
  {
    hide RangeHigh, RangeLow;
    RangeMirror(c, d);
  }

  lemma FibonacciMirror(c: real, lo: seq<Anchor>, hi: seq<Anchor>, r: Slot, side: Side)
    ensures Fibonacci(MirrorAnchors(c, hi), MirrorAnchors(c, lo), MirrorSlot(c, r), Opposite(side))
      == Fibonacci(lo, hi, r, side)
  {
    if lo != [] && hi != [] {
      var a, z := lo[|lo| - 1], hi[|hi| - 1];
      var b, y := MirrorAnchors(c, hi)[|hi| - 1], MirrorAnchors(c, lo)[|lo| - 1];
      assert b == MirrorAnchor(c, z) && y == MirrorAnchor(c, a);
      assert y.price - b.price == z.price - a.price;
      assert y.price - MirrorSlot(c, r).close == r.close - a.price;
      assert MirrorSlot(c, r).close - b.price == z.price - r.close;
    }
  }

  lemma SlopeMirror(c: real, from: real, to: real, bars: int)
    requires bars != 0
    ensures Slope(c - from, c - to, bars) == -Slope(from, to, bars)
  {
    var n := bars as real;
    assert (c - to) - (c - from) == -(to - from);
    Negated(to - from, n);
  }

  lemma Negated(x: real, n: real)
    requires n != 0.0
    ensures (-x) / n == -(x / n)
  {
    assert x / n * n == x;
    assert (-x) / n * n == -x;
    assert -(x / n) * n == -x;
    Cancel((-x) / n, -(x / n), n);
  }

  lemma ProjectMirror(c: real, from: real, slope: real, bars: int)
    ensures Project(c - from, -slope, bars) == c - Project(from, slope, bars)
  {
    var n := bars as real;
    assert (-slope) * n == -(slope * n);
  }

  lemma TrendlineMirror(c: real, same: seq<Anchor>, d: Decision, r: Slot, side: Side, i: int)
    requires AnchorsBefore(same, i + 1) && AnchorsBefore(MirrorAnchors(c, same), i + 1)
    ensures Trendline(MirrorAnchors(c, same), MirrorDecision(c, d), MirrorSlot(c, r), Opposite(side), i)
         == Trendline(same, d, r, side, i)
  {
    hide Slope, Project, Touch;
    if |same| >= 2 {
      var a, z := same[0], same[1];
      SlopeMirror(c, a.price, z.price, z.index - a.index);
      var slope := Slope(a.price, z.price, z.index - a.index);
      ProjectMirror(c, z.price, slope, i - z.index);
      TouchMirror(c, d, r, side, Some(Project(z.price, slope, i - z.index)));
      assert Sign(Opposite(side)) * -slope == Sign(side) * slope;
    }
  }

  lemma DivergenceMirror(c: real, same: seq<Anchor>, side: Side, family: Family, i: int)
    ensures Divergence(MirrorAnchors(c, same), Opposite(side), family, i) == Divergence(same, side, family, i)
  {
  }

  lemma RetestMirror(c: real, gap: Option<Gap>, r: Slot, side: Side, i: int)
    ensures GapRetest(MirrorGap(c, gap), MirrorSlot(c, r), Opposite(side), i) == GapRetest(gap, r, side, i)
  {
  }

  lemma LocationMirror(c: real, s: State, t: State, d: Decision, r: Slot, side: Side, family: Family, i: int)
    requires |d.prior| == 20 && Anchored(c, s, t)
    requires AnchorsBefore(s.lo, i + 1) && AnchorsBefore(s.hi, i + 1)
    requires AnchorsBefore(t.lo, i + 1) && AnchorsBefore(t.hi, i + 1)
    ensures LocationGroup(t, MirrorDecision(c, d), MirrorSlot(c, r), Opposite(side), family, i)
         == LocationGroup(s, d, r, side, family, i)
  {
    hide Touch, TouchedEdge, Fibonacci, GapRetest, Trendline, AnchorsBefore;
    EdgeMirror(c, d, side, family);
    TouchMirror(c, d, r, side, Some(TouchedEdge(d, side, family)));
    TouchMirror(c, d, r, side, d.row.ema20);
    FibonacciMirror(c, s.lo, s.hi, r, side);
    RetestMirror(c, if side == Long then s.up else s.down, r, side, i);
    TrendlineMirror(c, if side == Long then s.lo else s.hi, d, r, side, i);
  }

  lemma MomentumMirror(c: real, same: seq<Anchor>, row: Row, side: Side, family: Family, i: int)
    ensures MomentumGroup(MirrorAnchors(c, same), MirrorRow(c, row), Opposite(side), family, i)
         == MomentumGroup(same, row, side, family, i)
  {
    hide Divergence;
    DivergenceMirror(c, same, side, family, i);
  }

  lemma CandleMirror(c: real, p: Slot, r: Slot, ha: real, side: Side)
    ensures CandleGroup(MirrorSlot(c, p), MirrorSlot(c, r), -ha, Opposite(side)) == CandleGroup(p, r, ha, side)
  {
    hide OuterClose;
    OuterMirror(c, side, r);
  }

  /** Every feature of a mirrored bar is the feature of the opposite side. */
  lemma FeaturesMirror(c: real, s: State, t: State, d: Decision, r: Slot, side: Side, family: Family, i: int)
    requires |d.prior| == 20 && Anchored(c, s, t)
    requires AnchorsBefore(s.lo, i + 1) && AnchorsBefore(s.hi, i + 1)
    requires AnchorsBefore(t.lo, i + 1) && AnchorsBefore(t.hi, i + 1)
    ensures EventFeatures(t, MirrorDecision(c, d), MirrorSlot(c, r), Opposite(side), family, i)
         == EventFeatures(s, d, r, side, family, i)
  {
    hide LocationGroup, MomentumGroup, CandleGroup, Structure, AnchorsBefore, Burst;
    StructureMirror(c, s.lo, s.hi);
    LocationMirror(c, s, t, d, r, side, family, i);
    MomentumMirror(c, if side == Long then s.lo else s.hi, d.row, side, family, i);
    CandleMirror(c, d.p, r, d.row.haBody, side);
  }

  // ---------- one bar ----------

  lemma ConfirmMirror(c: real, anchors: seq<Anchor>, pivot: Option<Pivot>, i: int)
    requires AnchorsBefore(anchors, i) && AnchorsBefore(MirrorAnchors(c, anchors), i)
    ensures Confirm(MirrorAnchors(c, anchors), MirrorPivot(c, pivot), i) == MirrorAnchors(c, Confirm(anchors, pivot, i))
  {
  }

  lemma RefreshMirror(c: real, x: Seen, i: int, s: State, t: State)
    requires x.Seen? && Anchored(c, s, t) && AnchorsBefore(s.lo, i) && AnchorsBefore(s.hi, i)
    requires AnchorsBefore(t.lo, i) && AnchorsBefore(t.hi, i)
    ensures Anchored(c, Refresh(x, i, s), Refresh(MirrorSeen(c, x), i, t))
    ensures Refresh(x, i, s).used == s.used && Refresh(MirrorSeen(c, x), i, t).used == t.used
    ensures Refresh(x, i, s).events == s.events && Refresh(MirrorSeen(c, x), i, t).events == t.events
    ensures Refresh(x, i, s).invalid == s.invalid && Refresh(MirrorSeen(c, x), i, t).invalid == t.invalid
    ensures Refresh(x, i, s).warmup == s.warmup && Refresh(MirrorSeen(c, x), i, t).warmup == t.warmup
  {
    hide Confirm, AnchorsBefore;
    ConfirmMirror(c, s.hi, x.high, i);
    ConfirmMirror(c, s.lo, x.low, i);
  }

  lemma EmitMirror(c: real, family: Family, x: Seen, d: Decision, i: int, s: State, t: State, a: State, b: State)
    requires x.Seen? && |d.prior| == 20 && Anchored(c, s, t) && UsedAlike(s, t) && Anchored(c, a, b)
    requires AnchorsBefore(a.lo, i + 1) && AnchorsBefore(a.hi, i + 1)
    requires AnchorsBefore(b.lo, i + 1) && AnchorsBefore(b.hi, i + 1)
    ensures Emit(family, MirrorSeen(c, x), MirrorDecision(c, d), i, t, b)
      == MirrorEvents(c, Emit(family, x, d, i, s, a))
  {
    hide Fires, EventFeatures, UsedAlike, AnchorsBefore, Score;
    FiresMirror(c, family, s, t, d, x.r, Long);
    FiresMirror(c, family, s, t, d, x.r, Short);
    var sides := Sides(family, s, d, x.r);
    if |sides| == 1 {
      FeaturesMirror(c, a, b, d, x.r, sides[0], family, i);
      ScoreMirror(EventFeatures(a, d, x.r, sides[0], family, i), d.context.regime);
    }
  }

  lemma ScoreMirror(f: Features, regime: Regime)
    requires |f| == 5
    ensures Score(f, MirrorRegime(regime)) == Score(f, regime)
  {
    hide GroupScore;
  }

  lemma {:induction false} EmitFromMirror(c: real, k: nat, x: Seen, d: Decision, i: int, s: State, t: State, a: State,
                                          b: State)
    requires x.Seen? && |d.prior| == 20 && Anchored(c, s, t) && UsedAlike(s, t) && Anchored(c, a, b)
    requires k <= |FAMILIES|
    requires AnchorsBefore(a.lo, i + 1) && AnchorsBefore(a.hi, i + 1)
    requires AnchorsBefore(b.lo, i + 1) && AnchorsBefore(b.hi, i + 1)
    ensures EmitFrom(k, MirrorSeen(c, x), MirrorDecision(c, d), i, t, b) == MirrorEvents(c, EmitFrom(k, x, d, i, s, a))
    decreases |FAMILIES| - k
  {
    hide Emit, Anchored, UsedAlike, AnchorsBefore;
    if k < |FAMILIES| {
      EmitMirror(c, FAMILIES[k], x, d, i, s, t, a, b);
      EmitFromMirror(c, k + 1, x, d, i, s, t, a, b);
      EventsAppend(c, Emit(FAMILIES[k], x, d, i, s, a), EmitFrom(k + 1, x, d, i, s, a));
    }
  }

  lemma EventsAppend(c: real, a: seq<Event>, b: seq<Event>)
    ensures MirrorEvents(c, a + b) == MirrorEvents(c, a) + MirrorEvents(c, b)
  {
    hide MirrorEvent;
  }

  lemma UsedMirror(c: real, x: Seen, d: Decision, i: int, s: State, t: State)
    requires x.Seen? && Anchored(c, s, t) && UsedAlike(s, t)
    ensures forall side, hash ::
              (Opposite(side), hash) in t.used + Keys(NewHits(t, MirrorDecision(c, d), MirrorSlot(c, x.r), i))
              <==> (side, hash) in s.used + Keys(NewHits(s, d, x.r, i))
  {
    hide BreakOf;
    BreakMirror(c, s, t, d, x.r, Long);
    BreakMirror(c, s, t, d, x.r, Short);
    forall side, hash
      ensures (Opposite(side), hash) in Keys(NewHits(t, MirrorDecision(c, d), MirrorSlot(c, x.r), i))
              <==> (side, hash) in Keys(NewHits(s, d, x.r, i))
    {
      KeyOf(s, d, x.r, i, side, hash);
      KeyOf(t, MirrorDecision(c, d), MirrorSlot(c, x.r), i, Opposite(side), hash);
    }
  }

  lemma KeyOf(s: State, d: Decision, r: Slot, i: int, side: Side, hash: string)
    ensures (side, hash) in Keys(NewHits(s, d, r, i)) <==> BreakOf(s, d, r, side) == Some(hash)
  {
    hide BreakOf;
    var hits := NewHits(s, d, r, i);
    if BreakOf(s, d, r, side) == Some(hash) {
      var h := BreakHit(side, hash, i);
      assert h in HitsOn(s, d, r, side, i);
      match side {
        case Long => assert h in hits;
        case Short => assert h in hits;
      }
    }
    if (side, hash) in Keys(hits) {
      var h :| h in hits && (h.side, h.hash) == (side, hash);
    }
  }

  lemma StepMirrors(c: real, x: Seen, i: int, s: State, t: State)
    requires x.Seen? && x.decision.Some? ==> |x.decision.value.prior| == 20
    requires Mirrors(c, s, t) && AnchorsBefore(s.lo, i) && AnchorsBefore(s.hi, i)
    requires AnchorsBefore(t.lo, i) && AnchorsBefore(t.hi, i)
    ensures Mirrors(c, Step(x, i, s), Step(MirrorSeen(c, x), i, t))
  {
    hide Refresh, EmitFrom, NewHits, Keys, AnchorsBefore;
    if x.Seen? {
      RefreshMirror(c, x, i, s, t);
      var a, b := Refresh(x, i, s), Refresh(MirrorSeen(c, x), i, t);
      if x.decision.Some? {
        var d := x.decision.value;
        EmitFromMirror(c, 0, x, d, i, s, t, a, b);
        UsedMirror(c, x, d, i, s, t);
        EventsAppend(c, s.events, EmitFrom(0, x, d, i, s, a));
      }
    }
  }

  /** No directional bias, over every calendar and every mirror level: the run on the
      mirrored tape is the mirrored run, event by event. */
  lemma {:induction false} NoDirectionalBias(c: real, bars: seq<Slot>, first: int, n: nat)
    requires n <= |bars|
    ensures Mirrors(c, Run(bars, first, n), Run(MirrorTape(c, bars), first, n))
    ensures Run(MirrorTape(c, bars), first, n).events == MirrorEvents(c, Run(bars, first, n).events)
  {
    hide See, Step, MirrorSeen, Anchored, UsedAlike, AnchorsBefore;
    if n == 0 {
      NothingMirrors(c);
      Laws.RunStart(bars, first);
      Laws.RunStart(MirrorTape(c, bars), first);
    } else {
      NoDirectionalBias(c, bars, first, n - 1);
      SeeMirror(c, bars, first, n - 1);
      StepMirrors(c, See(bars, first, n - 1), n - 1, Run(bars, first, n - 1), Run(MirrorTape(c, bars), first, n - 1));
      Laws.RunStep(bars, first, n);
      Laws.RunStep(MirrorTape(c, bars), first, n);
    }
  }

  lemma NothingMirrors(c: real)
    ensures Mirrors(c, INITIAL, INITIAL)
  {
  }
}
