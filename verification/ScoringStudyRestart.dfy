/** No state crosses a data gap: after a bad slot the study continues exactly as
    a study that starts on the following slot, with bar positions shifted. */
module ScoringStudyRestart {
  import opened Common
  import opened Indicators
  import opened HourlyContext
  import opened ScoringStudy
  import opened ScoringStudyLaws

  function ShiftAnchor(a: Anchor, d: int): Anchor {
    a.(index := a.index + d, confirmed := a.confirmed + d)
  }

  function ShiftAnchors(s: seq<Anchor>, d: int): (r: seq<Anchor>)
    ensures |r| == |s| && forall k :: 0 <= k < |s| ==> r[k] == ShiftAnchor(s[k], d)
  {
    seq(|s|, k requires 0 <= k < |s| => ShiftAnchor(s[k], d))
  }

  function ShiftGap(g: Option<Gap>, d: int): Option<Gap> {
    if g.None? then None else Some(g.value.(created := g.value.created + d))
  }

  function ShiftEvent(e: Event, d: int): Event {
    e.(index := e.index + d, lo := ShiftAnchors(e.lo, d), hi := ShiftAnchors(e.hi, d))
  }

  function ShiftEvents(s: seq<Event>, d: int): (r: seq<Event>)
    ensures |r| == |s| && forall k :: 0 <= k < |s| ==> r[k] == ShiftEvent(s[k], d)
  {
    seq(|s|, k requires 0 <= k < |s| => ShiftEvent(s[k], d))
  }

  function ShiftHits(s: seq<BreakHit>, d: int): (r: seq<BreakHit>)
    ensures |r| == |s| && forall k :: 0 <= k < |s| ==> r[k] == s[k].(index := s[k].index + d)
  {
    seq(|s|, k requires 0 <= k < |s| => s[k].(index := s[k].index + d))
  }

  /** full continues base as late does from nothing, d slots further on. */
  ghost predicate Resumed(full: State, late: State, base: State, d: int) {
    && full.lo == ShiftAnchors(late.lo, d)
    && full.hi == ShiftAnchors(late.hi, d)
    && full.up == ShiftGap(late.up, d)
    && full.down == ShiftGap(late.down, d)
    && full.used == base.used + late.used
    && full.hits == base.hits + ShiftHits(late.hits, d)
    && full.events == base.events + ShiftEvents(late.events, d)
  }

  // ---------- what a bar sees after the gap ----------

  lemma PivotsRestart(bars: seq<Slot>, d: nat, j: nat)
    requires 0 < d && d + j < |bars| && !bars[d - 1].eligible
    ensures LowPivot(bars, d + j) == LowPivot(bars[d..], j) && HighPivot(bars, d + j) == HighPivot(bars[d..], j)
    ensures GapAbove(bars, d + j) == GapAbove(bars[d..], j) && GapBelow(bars, d + j) == GapBelow(bars[d..], j)
  {
    hide IndicatorRow;
    UnbrokenRestart(bars, d, j, 6);
    UnbrokenRestart(bars, d, j, 2);
    var rest := bars[d..];
    assert forall k :: 0 <= k < |rest| ==> rest[k] == bars[d + k];
    if Unbroken(rest, j, 6) {
      IndicatorRestart(bars, d, j - 3);
      assert forall k :: d + j - 6 <= k <= d + j ==> bars[k] == rest[k - d];
    }
  }

  lemma UnbrokenRestart(bars: seq<Slot>, d: nat, j: nat, width: nat)
    requires 0 < d && d + j < |bars| && !bars[d - 1].eligible
    ensures Unbroken(bars, d + j, width) <==> Unbroken(bars[d..], j, width)
  {
    if Unbroken(bars, d + j, width) {
      assert !(d + j - width <= d - 1);
    }
    if Unbroken(bars[d..], j, width) {
      forall k | d + j - width <= k <= d + j ensures bars[k].eligible {
        assert bars[k] == bars[d..][k - d];
      }
    }
  }

  lemma DecisionRestart(bars: seq<Slot>, first: int, d: nat, j: nat)
    requires 0 < d && d + j < |bars| && !bars[d - 1].eligible
    ensures DecisionAt(bars, first, d + j) == DecisionAt(bars[d..], first + d, j)
  {
    hide IndicatorRow, ContextAt;
    UnbrokenRestart(bars, d, j, 49);
    assert Warm(bars, d + j) <==> Unbroken(bars, d + j, 49);
    assert Warm(bars[d..], j) <==> Unbroken(bars[d..], j, 49);
    if Warm(bars[d..], j) {
      IndicatorRestart(bars, d, j);
      IndicatorRestart(bars, d, j - 1);
      ContextRestart(bars, first, d, j);
      assert bars[d + j - 20..d + j] == bars[d..][j - 20..j];
    }
  }

  lemma SeeRestart(bars: seq<Slot>, first: int, d: nat, j: nat)
    requires 0 < d && d + j < |bars| && !bars[d - 1].eligible
    ensures See(bars, first, d + j) == See(bars[d..], first + d, j)
  {
    hide LowPivot, HighPivot, GapAbove, GapBelow, DecisionAt;
    PivotsRestart(bars, d, j);
    DecisionRestart(bars, first, d, j);
  }

  // ---------- a bar acts the same, shifted ----------

  lemma ConfirmShift(anchors: seq<Anchor>, pivot: Option<Pivot>, i: int, d: int)
    requires AnchorsBefore(anchors, i)
    ensures AnchorsBefore(ShiftAnchors(anchors, d), i + d)
    ensures Confirm(ShiftAnchors(anchors, d), pivot, i + d) == ShiftAnchors(Confirm(anchors, pivot, i), d)
  {
  }

  lemma RefreshShift(s: Seen, i: int, full: State, late: State, base: State, d: int)
    requires s.Seen? && AnchorsBefore(late.lo, i) && AnchorsBefore(late.hi, i)
    requires Resumed(full, late, base, d)
    ensures AnchorsBefore(full.lo, i + d) && AnchorsBefore(full.hi, i + d)
    ensures Resumed(Refresh(s, i + d, full), Refresh(s, i, late), base, d)
  {
    hide Confirm;
    ConfirmShift(late.lo, s.low, i, d);
    ConfirmShift(late.hi, s.high, i, d);
  }

  lemma TrendlineShift(same: seq<Anchor>, dec: Decision, r: Slot, side: Side, i: int, d: int)
    requires AnchorsBefore(same, i + 1)
    ensures AnchorsBefore(ShiftAnchors(same, d), i + d + 1)
    ensures Trendline(ShiftAnchors(same, d), dec, r, side, i + d) == Trendline(same, dec, r, side, i)
  {
    hide Touch, Slope, Project, Sign;
    if |same| == 2 {
      var t := ShiftAnchors(same, d);
      assert t[1].index - t[0].index == same[1].index - same[0].index && i + d - t[1].index == i - same[1].index;
    }
  }

  lemma PairReadsShift(lo: seq<Anchor>, hi: seq<Anchor>, r: Slot, side: Side, d: int)
    ensures Structure(ShiftAnchors(lo, d), ShiftAnchors(hi, d)) == Structure(lo, hi)
    ensures Fibonacci(ShiftAnchors(lo, d), ShiftAnchors(hi, d), r, side) == Fibonacci(lo, hi, r, side)
  {
  }

  lemma DivergenceShift(same: seq<Anchor>, side: Side, family: Family, i: int, d: int)
    ensures Divergence(ShiftAnchors(same, d), side, family, i + d) == Divergence(same, side, family, i)
  {
  }

  lemma LocationShift(full: State, late: State, dec: Decision, r: Slot, side: Side, family: Family, i: int, d: int)
    requires |dec.prior| == 20 && AnchorsBefore(late.lo, i + 1) && AnchorsBefore(late.hi, i + 1)
    requires AnchorsBefore(full.lo, i + d + 1) && AnchorsBefore(full.hi, i + d + 1)
    requires full.lo == ShiftAnchors(late.lo, d) && full.hi == ShiftAnchors(late.hi, d)
    requires full.up == ShiftGap(late.up, d) && full.down == ShiftGap(late.down, d)
    ensures LocationGroup(full, dec, r, side, family, i + d) == LocationGroup(late, dec, r, side, family, i)
  {
    hide Touch, TouchedEdge, Trendline, Fibonacci, AnchorsBefore;
    TrendlineShift(if side == Long then late.lo else late.hi, dec, r, side, i, d);
    PairReadsShift(late.lo, late.hi, r, side, d);
    assert GapRetest(if side == Long then full.up else full.down, r, side, i + d)
        == GapRetest(if side == Long then late.up else late.down, r, side, i);
    hide GapRetest;
  }

  lemma FeaturesShift(full: State, late: State, dec: Decision, r: Slot, side: Side, family: Family, i: int, d: int)
    requires |dec.prior| == 20 && AnchorsBefore(late.lo, i + 1) && AnchorsBefore(late.hi, i + 1)
    requires AnchorsBefore(full.lo, i + d + 1) && AnchorsBefore(full.hi, i + d + 1)
    requires full.lo == ShiftAnchors(late.lo, d) && full.hi == ShiftAnchors(late.hi, d)
    requires full.up == ShiftGap(late.up, d) && full.down == ShiftGap(late.down, d)
    ensures EventFeatures(full, dec, r, side, family, i + d) == EventFeatures(late, dec, r, side, family, i)
  {
    hide LocationGroup, CandleGroup, Divergence, Between, Structure, AnchorsBefore;
    LocationShift(full, late, dec, r, side, family, i, d);
    DivergenceShift(if side == Long then late.lo else late.hi, side, family, i, d);
    PairReadsShift(late.lo, late.hi, r, side, d);
    var same, t := if side == Long then late.lo else late.hi, if side == Long then full.lo else full.hi;
    assert MomentumGroup(t, dec.row, side, family, i + d) == MomentumGroup(same, dec.row, side, family, i);
    hide MomentumGroup;
  }

  lemma BreakShift(full: State, late: State, dec: Decision, r: Slot, side: Side, d: int)
    requires full.lo == ShiftAnchors(late.lo, d) && full.hi == ShiftAnchors(late.hi, d)
    requires forall a :: a in late.lo || a in late.hi ==> ((side, a.hash) in full.used <==> (side, a.hash) in late.used)
    ensures Structure(full.lo, full.hi) == Structure(late.lo, late.hi)
    ensures BreakOf(full, dec, r, side) == BreakOf(late, dec, r, side)
  {
    var anchors := if side == Long then late.hi else late.lo;
    if anchors != [] {
      assert anchors[|anchors| - 1] in anchors;
    }
  }

  ghost predicate SameKeys(full: State, late: State) {
    forall a, side :: a in late.lo || a in late.hi ==> ((side, a.hash) in full.used <==> (side, a.hash) in late.used)
  }

  lemma EmitShift(family: Family, s: Seen, dec: Decision, i: int, full: State, late: State, fullAfter: State,
                  lateAfter: State, base: State, d: int)
    requires s.Seen? && |dec.prior| == 20
    requires AnchorsBefore(lateAfter.lo, i + 1) && AnchorsBefore(lateAfter.hi, i + 1)
    requires AnchorsBefore(fullAfter.lo, i + d + 1) && AnchorsBefore(fullAfter.hi, i + d + 1)
    requires Resumed(full, late, base, d) && Resumed(fullAfter, lateAfter, base, d) && SameKeys(full, late)
    ensures Emit(family, s, dec, i + d, full, fullAfter) == ShiftEvents(Emit(family, s, dec, i, late, lateAfter), d)
  {
    hide EventFeatures, Score, BreakOf, Structure, OuterClose, RangeLow, RangeHigh;
    BreakShift(full, late, dec, s.r, Long, d);
    BreakShift(full, late, dec, s.r, Short, d);
    assert Sides(family, full, dec, s.r) == Sides(family, late, dec, s.r);
    hide Fires;
    var sides := Sides(family, late, dec, s.r);
    if |sides| == 1 {
      FeaturesShift(fullAfter, lateAfter, dec, s.r, sides[0], family, i, d);
    }
  }

  lemma {:induction false} EmitFromShift(k: nat, s: Seen, dec: Decision, i: int, full: State, late: State,
                                         fullAfter: State, lateAfter: State, base: State, d: int)
    requires s.Seen? && |dec.prior| == 20 && k <= |FAMILIES|
    requires AnchorsBefore(lateAfter.lo, i + 1) && AnchorsBefore(lateAfter.hi, i + 1)
    requires AnchorsBefore(fullAfter.lo, i + d + 1) && AnchorsBefore(fullAfter.hi, i + d + 1)
    requires Resumed(full, late, base, d) && Resumed(fullAfter, lateAfter, base, d) && SameKeys(full, late)
    ensures EmitFrom(k, s, dec, i + d, full, fullAfter) == ShiftEvents(EmitFrom(k, s, dec, i, late, lateAfter), d)
    decreases |FAMILIES| - k
  {
    hide Emit, Resumed, SameKeys, AnchorsBefore, ShiftEvent;
    if k < |FAMILIES| {
      EmitShift(FAMILIES[k], s, dec, i, full, late, fullAfter, lateAfter, base, d);
      EmitFromShift(k + 1, s, dec, i, full, late, fullAfter, lateAfter, base, d);
    }
  }

  lemma NewHitsShift(dec: Decision, r: Slot, i: int, full: State, late: State, base: State, d: int)
    requires Resumed(full, late, base, d) && SameKeys(full, late)
    ensures NewHits(full, dec, r, i + d) == ShiftHits(NewHits(late, dec, r, i), d)
    ensures Keys(NewHits(full, dec, r, i + d)) == Keys(NewHits(late, dec, r, i))
  {
    hide HitsOn, Keys, Resumed, SameKeys;
    HitsShift(dec, r, Long, i, full, late, base, d);
    HitsShift(dec, r, Short, i, full, late, base, d);
    var a, b := HitsOn(late, dec, r, Long, i), HitsOn(late, dec, r, Short, i);
    assert ShiftHits(a + b, d) == ShiftHits(a, d) + ShiftHits(b, d);
    SameKeySets(NewHits(full, dec, r, i + d), NewHits(late, dec, r, i));
  }

  lemma HitsShift(dec: Decision, r: Slot, side: Side, i: int, full: State, late: State, base: State, d: int)
    requires Resumed(full, late, base, d) && SameKeys(full, late)
    ensures HitsOn(full, dec, r, side, i + d) == ShiftHits(HitsOn(late, dec, r, side, i), d)
  {
    hide BreakOf, Structure;
    BreakShift(full, late, dec, r, side, d);
    hide SameKeys;
  }

  lemma SameKeySets(a: seq<BreakHit>, b: seq<BreakHit>)
    requires |a| == |b| && forall k :: 0 <= k < |a| ==> a[k].side == b[k].side && a[k].hash == b[k].hash
    ensures Keys(a) == Keys(b)
  {
    forall k | 0 <= k < |a| ensures (a[k].side, a[k].hash) in Keys(b) && (b[k].side, b[k].hash) in Keys(a) {
      assert a[k] in a && b[k] in b;
    }
  }

  lemma StepShift(s: Seen, i: int, full: State, late: State, base: State, d: int)
    requires s.Seen? && s.decision.Some? ==> |s.decision.value.prior| == 20
    requires AnchorsBefore(late.lo, i) && AnchorsBefore(late.hi, i)
    requires Resumed(full, late, base, d) && SameKeys(full, late)
    ensures AnchorsBefore(full.lo, i + d) && AnchorsBefore(full.hi, i + d)
    ensures Resumed(Step(s, i + d, full), Step(s, i, late), base, d)
  {
    hide Step, Refresh, EmitFrom, NewHits, Keys, SameKeys, ShiftEvent, AnchorsBefore;
    StepFields(s, i, late);
    ConfirmShift(late.lo, None, i, d);
    ConfirmShift(late.hi, None, i, d);
    StepFields(s, i + d, full);
    if s.Seen? {
      RefreshShift(s, i, full, late, base, d);
      if s.decision.Some? {
        var dec := s.decision.value;
        EmitFromShift(0, s, dec, i, full, late, Refresh(s, i + d, full), Refresh(s, i, late), base, d);
        NewHitsShift(dec, s.r, i, full, late, base, d);
      }
    }
  }

  // ---------- anchor hashes do not recur ----------

  /** Content hashes identify eligible bars. */
  ghost predicate DistinctHashes(bars: seq<Slot>) {
    forall j, k :: 0 <= j < k < |bars| && bars[j].eligible && bars[k].eligible ==> bars[j].hash != bars[k].hash
  }

  ghost predicate Stamped(bars: seq<Slot>, hash: string, lo: int, hi: int) {
    exists k :: lo <= k < hi && 0 <= k < |bars| && bars[k].eligible && bars[k].hash == hash
  }

  ghost predicate UsedStamped(bars: seq<Slot>, st: State, n: nat) {
    forall key :: key in st.used ==> Stamped(bars, key.1, 0, n)
  }

  lemma AnchorStamped(bars: seq<Slot>, st: State, n: nat, a: Anchor)
    requires n <= |bars| && Hygienic(bars, st, n) && (a in st.lo || a in st.hi)
    ensures Stamped(bars, a.hash, 0, n)
  {
    assert exists low :: Grounded(bars, a, low, n);
    assert bars[a.index].eligible;
  }

  lemma BreakStamped(bars: seq<Slot>, st: State, n: nat, dec: Decision, r: Slot, i: int)
    requires n <= |bars| && Hygienic(bars, st, n)
    ensures forall key :: key in Keys(NewHits(st, dec, r, i)) ==> Stamped(bars, key.1, 0, n)
  {
    hide Hygienic, Stamped, Structure, Crosses;
    forall key | key in Keys(NewHits(st, dec, r, i)) ensures Stamped(bars, key.1, 0, n) {
      var h :| h in NewHits(st, dec, r, i) && key == (h.side, h.hash);
      var anchors := if h.side == Long then st.hi else st.lo;
      AnchorStamped(bars, st, n, anchors[|anchors| - 1]);
    }
  }

  lemma {:induction false} UsedKeysStamped(bars: seq<Slot>, first: int, n: nat)
    requires n <= |bars|
    ensures UsedStamped(bars, Run(bars, first, n), n)
  {
    hide Run, See, Step, Refresh, NewHits, Keys, EmitFrom, Hygienic;
    if n == 0 {
      RunStart(bars, first);
    } else {
      var s, st := See(bars, first, n - 1), Run(bars, first, n - 1);
      RunStep(bars, first, n);
      UsedKeysStamped(bars, first, n - 1);
      AnchorHygiene(bars, first, n - 1);
      StepFields(s, n - 1, st);
      if s.Seen? && s.decision.Some? {
        BreakStamped(bars, st, n - 1, s.decision.value, s.r, n - 1);
      }
    }
  }

  lemma KeysStaySeparate(bars: seq<Slot>, first: int, d: nat, n: nat, full: State)
    requires 0 < d && d + n <= |bars| && DistinctHashes(bars)
    requires Resumed(full, Run(bars[d..], first + d, n), Run(bars, first, d), d)
    ensures SameKeys(full, Run(bars[d..], first + d, n))
  {
    hide Run, Hygienic;
    var late, base := Run(bars[d..], first + d, n), Run(bars, first, d);
    UsedKeysStamped(bars, first, d);
    AnchorHygiene(bars[d..], first + d, n);
    forall a, side | a in late.lo || a in late.hi ensures (side, a.hash) !in base.used {
      AnchorStamped(bars[d..], late, n, a);
      HashOnce(bars, a.hash, d, n);
    }
  }

  lemma HashOnce(bars: seq<Slot>, hash: string, d: nat, n: nat)
    requires d + n <= |bars| && DistinctHashes(bars) && Stamped(bars[d..], hash, 0, n)
    ensures !Stamped(bars, hash, 0, d)
  {
    var k :| 0 <= k < n && bars[d..][k].eligible && bars[d..][k].hash == hash;
    assert bars[d + k].eligible && bars[d + k].hash == hash;
  }

  /** After a bad slot the study continues as one started on the next slot: the
      events that follow are those of the fresh study with positions shifted. */
  lemma {:induction false} GapRestart(bars: seq<Slot>, first: int, d: nat, n: nat)
    requires 0 < d && d + n <= |bars| && !bars[d - 1].eligible
    requires DistinctHashes(bars)
    ensures Resumed(Run(bars, first, d + n), Run(bars[d..], first + d, n), Run(bars, first, d), d)
  {
    hide Run, See, Step, Resumed, SameKeys;
    if n == 0 {
      RunStart(bars[d..], first + d);
      RunStep(bars, first, d);
      FreshAfterBad(See(bars, first, d - 1), d, Run(bars, first, d - 1));
    } else {
      GapRestart(bars, first, d, n - 1);
      var full, late, base := Run(bars, first, d + n - 1), Run(bars[d..], first + d, n - 1), Run(bars, first, d);
      KeysStaySeparate(bars, first, d, n - 1, full);
      SeeRestart(bars, first, d, n - 1);
      StepShift(See(bars[d..], first + d, n - 1), n - 1, full, late, base, d);
      RunStep(bars, first, d + n);
      RunStep(bars[d..], first + d, n);
    }
  }

  lemma FreshAfterBad(s: Seen, d: nat, before: State)
    requires 0 < d && s.Bad? && AnchorsBefore(before.lo, d - 1) && AnchorsBefore(before.hi, d - 1)
    ensures Resumed(Step(s, d - 1, before), INITIAL, Step(s, d - 1, before), d)
  {
  }
}
