/** What each detector's events mean on the bars: which prices were broken, rejected
    or reclaimed. Nothing here is said in terms of the running state. */
module ScoringStudyDetectors {
  import opened Common
  import opened Indicators
  import opened HourlyContext
  import opened ScoringStudy
  import Laws = ScoringStudyLaws
  import Segments

  // ---------- swings on the bars ----------

  /** Bar a is a strict three-by-three swing, known before bar n, with no bad slot from
      its left neighbours on. */
  ghost predicate Swing(bars: seq<Slot>, a: nat, low: bool, n: nat)
    requires n <= |bars|
  {
    && 3 <= a && a + 3 < n
    && (forall k :: a - 3 <= k < n ==> bars[k].eligible)
    && forall k :: a - 3 <= k <= a + 3 && k != a ==>
         if low then bars[a].low < bars[k].low else bars[a].high > bars[k].high
  }

  ghost predicate Latest(bars: seq<Slot>, z: nat, low: bool, n: nat)
    requires n <= |bars|
  {
    Swing(bars, z, low, n) && forall b: nat :: Swing(bars, b, low, n) ==> b <= z
  }

  ghost predicate LatestTwo(bars: seq<Slot>, a: nat, z: nat, low: bool, n: nat)
    requires n <= |bars|
  {
    && a < z && Swing(bars, a, low, n) && Swing(bars, z, low, n)
    && forall b: nat :: Swing(bars, b, low, n) ==> b <= a || b == z
  }

  /** The last two swing lows and the last two swing highs both went up. */
  ghost predicate Rising(bars: seq<Slot>, n: nat)
    requires n <= |bars|
  {
    && (exists a: nat, z: nat :: LatestTwo(bars, a, z, true, n) && bars[a].low < bars[z].low)
    && (exists a: nat, z: nat :: LatestTwo(bars, a, z, false, n) && bars[a].high < bars[z].high)
  }

  ghost predicate Falling(bars: seq<Slot>, n: nat)
    requires n <= |bars|
  {
    && (exists a: nat, z: nat :: LatestTwo(bars, a, z, true, n) && bars[a].low > bars[z].low)
    && (exists a: nat, z: nat :: LatestTwo(bars, a, z, false, n) && bars[a].high > bars[z].high)
  }

  /** No swing is missed: one that is not an anchor is older than two that are. */
  ghost predicate Exhaustive(bars: seq<Slot>, anchors: seq<Anchor>, low: bool, n: nat)
    requires n <= |bars|
  {
    && (forall k :: 0 <= k < |anchors| ==> anchors[k].index >= 0 && Laws.Grounded(bars, anchors[k], low, n))
    && (|anchors| == 2 ==> anchors[0].index < anchors[1].index)
    && |anchors| <= 2
    && forall a: nat :: Swing(bars, a, low, n) ==> Kept(anchors, a)
  }

  lemma GroundedSwing(bars: seq<Slot>, a: Anchor, low: bool, n: nat)
    requires n <= |bars| && Laws.Grounded(bars, a, low, n)
    ensures a.index >= 3 && Swing(bars, a.index, low, n)
    ensures a.hash == bars[a.index].hash && a.price == if low then bars[a.index].low else bars[a.index].high
  {
  }

  /** The swings known one eligible bar later: the old ones, and perhaps the one that
      bar completes. */
  lemma SwingGrows(bars: seq<Slot>, a: nat, low: bool, i: nat)
    requires i < |bars| && bars[i].eligible
    ensures var pivot := if low then LowPivot(bars, i) else HighPivot(bars, i);
            Swing(bars, a, low, i + 1) <==> Swing(bars, a, low, i) || (a + 3 == i && pivot.Some?)
  {
    hide IndicatorRow;
    if a + 3 == i && Swing(bars, a, low, i + 1) {
      assert Unbroken(bars, i, 6);
    }
  }

  ghost predicate Kept(anchors: seq<Anchor>, a: nat) {
    (exists k :: 0 <= k < |anchors| && anchors[k].index == a) || (|anchors| == 2 && a < anchors[0].index)
  }

  lemma SwingKept(bars: seq<Slot>, anchors: seq<Anchor>, low: bool, i: nat, a: nat)
    requires i < |bars| && bars[i].eligible && AnchorsBefore(anchors, i) && Exhaustive(bars, anchors, low, i)
    requires Swing(bars, a, low, i + 1)
    ensures Kept(Confirm(anchors, if low then LowPivot(bars, i) else HighPivot(bars, i), i), a)
  {
    hide LowPivot, HighPivot, Swing;
    var pivot := if low then LowPivot(bars, i) else HighPivot(bars, i);
    SwingGrows(bars, a, low, i);
    if Swing(bars, a, low, i) {
      KeptOrOlder(anchors, pivot, i, a);
    } else {
      var r := Confirm(anchors, pivot, i);
      assert r[|r| - 1].index == a;
    }
  }

  lemma ConfirmComplete(bars: seq<Slot>, anchors: seq<Anchor>, low: bool, i: nat)
    requires i < |bars| && bars[i].eligible && AnchorsBefore(anchors, i) && Exhaustive(bars, anchors, low, i)
    ensures Exhaustive(bars, Confirm(anchors, if low then LowPivot(bars, i) else HighPivot(bars, i), i), low, i + 1)
  {
    var r := Confirm(anchors, if low then LowPivot(bars, i) else HighPivot(bars, i), i);
    Laws.ConfirmGrounded(bars, anchors, low, i);
    forall a: nat | Swing(bars, a, low, i + 1) ensures Kept(r, a) {
      SwingKept(bars, anchors, low, i, a);
    }
    hide Confirm, LowPivot, HighPivot, Swing, Laws.Grounded;
    forall k | 0 <= k < |r| ensures r[k].index >= 0 {
      GroundedSwing(bars, r[k], low, i + 1);
    }
  }

  lemma KeptOrOlder(anchors: seq<Anchor>, pivot: Option<Pivot>, i: nat, a: nat)
    requires AnchorsBefore(anchors, i)
    requires Kept(anchors, a)
    ensures Kept(Confirm(anchors, pivot, i), a)
  {
    var r := Confirm(anchors, pivot, i);
    if k :| 0 <= k < |anchors| && anchors[k].index == a {
      if |r| == |anchors| + 1 || pivot.None? {
        assert r[k].index == a;
      } else if k == 1 {
        assert r[0].index == a;
      }
    }
  }

  ghost predicate AllSwings(bars: seq<Slot>, st: State, n: nat)
    requires n <= |bars|
  {
    Exhaustive(bars, st.lo, true, n) && Exhaustive(bars, st.hi, false, n)
  }

  /** The anchors are exactly the last two swings of each kind since the last bad slot. */
  lemma {:induction false} AnchorsAreSwings(bars: seq<Slot>, first: int, n: nat)
    requires n <= |bars|
    ensures AllSwings(bars, Run(bars, first, n), n)
  {
    hide *;
    if n == 0 {
      Laws.RunStart(bars, first);
      InitialSwings(bars);
    } else {
      var i := n - 1;
      Laws.RunStep(bars, first, n);
      AnchorsAreSwings(bars, first, i);
      Laws.AnchorHygiene(bars, first, i);
      StepSwings(bars, first, i, Run(bars, first, i));
    }
  }

  lemma InitialSwings(bars: seq<Slot>)
    ensures AllSwings(bars, INITIAL, 0)
  {
    NoSwings(bars, 0);
  }

  lemma NoSwings(bars: seq<Slot>, n: nat)
    requires n <= |bars| && (n == 0 || !bars[n - 1].eligible)
    ensures Exhaustive(bars, [], true, n) && Exhaustive(bars, [], false, n)
  {
  }

  lemma StepSwings(bars: seq<Slot>, first: int, i: nat, st: State)
    requires i < |bars| && Laws.Hygienic(bars, st, i) && AllSwings(bars, st, i)
    ensures AllSwings(bars, Step(See(bars, first, i), i, st), i + 1)
  {
    hide Step, Exhaustive, LowPivot, HighPivot, GapAbove, GapBelow, DecisionAt, Form, AgeUp, AgeDown, Confirm;
    Laws.StepFields(See(bars, first, i), i, st);
    if bars[i].eligible {
      ConfirmComplete(bars, st.lo, true, i);
      ConfirmComplete(bars, st.hi, false, i);
    } else {
      NoSwings(bars, i + 1);
    }
  }

  // ---------- trend ----------

  lemma TwoAnchors(bars: seq<Slot>, anchors: seq<Anchor>, low: bool, n: nat)
    requires n <= |bars| && Exhaustive(bars, anchors, low, n)
    ensures |anchors| == 2 ==> LatestTwo(bars, anchors[0].index, anchors[1].index, low, n)
    ensures forall a: nat, z: nat :: LatestTwo(bars, a, z, low, n) ==>
              |anchors| == 2 && anchors[0].index == a && anchors[1].index == z
  {
    forall k | 0 <= k < |anchors| ensures anchors[k].index >= 3 && Swing(bars, anchors[k].index, low, n) {
      GroundedSwing(bars, anchors[k], low, n);
    }
    hide Swing, Laws.Grounded;
    forall a: nat, z: nat | LatestTwo(bars, a, z, low, n)
      ensures |anchors| == 2 && anchors[0].index == a && anchors[1].index == z
    {
      assert Kept(anchors, a) && Kept(anchors, z);
    }
  }

  lemma LastAnchor(bars: seq<Slot>, anchors: seq<Anchor>, low: bool, n: nat)
    requires n <= |bars| && Exhaustive(bars, anchors, low, n)
    ensures anchors != [] ==> anchors[|anchors| - 1].index >= 0 && Latest(bars, anchors[|anchors| - 1].index, low, n)
    ensures forall z: nat :: Latest(bars, z, low, n) ==> anchors != [] && anchors[|anchors| - 1].index == z
  {
    forall k | 0 <= k < |anchors| ensures anchors[k].index >= 3 && Swing(bars, anchors[k].index, low, n) {
      GroundedSwing(bars, anchors[k], low, n);
    }
    hide Swing, Laws.Grounded;
    forall z: nat | Swing(bars, z, low, n) ensures Kept(anchors, z) {
    }
  }

  lemma PricesOf(bars: seq<Slot>, anchors: seq<Anchor>, low: bool, n: nat)
    requires n <= |bars| && Exhaustive(bars, anchors, low, n)
    ensures forall k :: 0 <= k < |anchors| ==>
              && 0 <= anchors[k].index < |bars| && anchors[k].hash == bars[anchors[k].index].hash
              && anchors[k].price == if low then bars[anchors[k].index].low else bars[anchors[k].index].high
  {
    forall k | 0 <= k < |anchors|
      ensures && 0 <= anchors[k].index < |bars| && anchors[k].hash == bars[anchors[k].index].hash
              && anchors[k].price == if low then bars[anchors[k].index].low else bars[anchors[k].index].high
    {
      GroundedSwing(bars, anchors[k], low, n);
    }
  }

  /** The trend is up exactly when the last two lows and highs on the bars went up. */
  lemma TrendExactly(bars: seq<Slot>, st: State, n: nat)
    requires n <= |bars| && AllSwings(bars, st, n)
    ensures Structure(st.lo, st.hi) == Some(Long) <==> Rising(bars, n)
    ensures Structure(st.lo, st.hi) == Some(Short) <==> Falling(bars, n)
  {
    TwoAnchors(bars, st.lo, true, n);
    TwoAnchors(bars, st.hi, false, n);
    PricesOf(bars, st.lo, true, n);
    PricesOf(bars, st.hi, false, n);
    hide Exhaustive, LatestTwo;
  }

  // ---------- which bars decide ----------

  /** The bar's price left the close before it. */
  ghost predicate Moved(bars: seq<Slot>, k: nat)
    requires 1 <= k < |bars|
  {
    !(bars[k].low == bars[k - 1].close == bars[k].high)
  }

  /** Fifty eligible bars, and some movement in the last twenty. */
  ghost predicate Deciding(bars: seq<Slot>, i: nat)
    requires i < |bars|
  {
    i >= 49 && (forall k :: i - 49 <= k <= i ==> bars[k].eligible) && exists k: nat :: i - 20 < k <= i && Moved(bars, k)
  }

  lemma {:induction false} PositiveSum(s: seq<real>)
    requires forall k :: 0 <= k < |s| ==> s[k] >= 0.0
    ensures Sum(s) >= 0.0 && (Sum(s) > 0.0 <==> exists k :: 0 <= k < |s| && s[k] > 0.0)
  {
    if s != [] {
      var init := s[..|s| - 1];
      PositiveSum(init);
      assert s[|s| - 1] > 0.0 || forall k :: 0 <= k < |s| && s[k] > 0.0 ==> init[k] == s[k];
      assert forall k :: 0 <= k < |init| ==> init[k] == s[k];
    }
  }

  lemma RangeMoves(part: seq<Slot>, k: nat)
    requires 1 <= k < |part|
    ensures TrueRange(part, k) >= 0.0 && (TrueRange(part, k) > 0.0 <==> Moved(part, k))
  {
  }

  lemma AtrMoves(part: seq<Slot>, j: nat)
    requires 20 <= j < |part|
    ensures Atr20(part, j).Some?
    ensures Atr20(part, j).value > 0.0 <==> exists k: nat :: j - 20 < k <= j && Moved(part, k)
  {
    var s := TrueRanges(part)[j - 19..j + 1];
    forall k | 0 <= k < 20 ensures s[k] >= 0.0 && (s[k] > 0.0 <==> Moved(part, j - 19 + k)) {
      RangeMoves(part, j - 19 + k);
    }
    hide TrueRange, Moved;
    PositiveSum(s);
    if k: nat :| j - 20 < k <= j && Moved(part, k) {
      assert s[k - (j - 19)] > 0.0;
    }
  }

  lemma StretchLong(bars: seq<Slot>, i: nat)
    requires i < |bars| && Warm(bars, i)
    ensures Segments.Start(Flags(bars), i) <= i - 49
  {
  }

  lemma MovesShift(bars: seq<Slot>, s: nat, e: nat, i: nat)
    requires s + 49 <= i < e <= |bars|
    ensures (exists k: nat :: i - 20 < k <= i && Moved(bars, k))
            <==> exists k: nat :: i - s - 20 < k <= i - s && Moved(bars[s..e], k)
  {
    var part := bars[s..e];
    if k: nat :| i - 20 < k <= i && Moved(bars, k) {
      assert Moved(part, k - s);
    }
    if k: nat :| i - s - 20 < k <= i - s && Moved(part, k) {
      assert Moved(bars, k + s);
    }
  }

  lemma AtrDecides(bars: seq<Slot>, i: nat)
    requires i < |bars| && Warm(bars, i)
    ensures IndicatorRow(bars, i).atr20.Some?
    ensures IndicatorRow(bars, i).atr20.value > 0.0 <==> exists k: nat :: i - 20 < k <= i && Moved(bars, k)
  {
    var s, e := Segments.Start(Flags(bars), i), Segments.End(Flags(bars), i);
    StretchLong(bars, i);
    AtrMoves(bars[s..e], i - s);
    MovesShift(bars, s, e, i);
    hide Segments.Start, Segments.End, Atr20, EmaAt, MacdHist, WilderRsi, Stochastic, HaBody, PriorMedian, Moved;
  }

  lemma DecidesExactly(bars: seq<Slot>, first: int, i: nat)
    requires i < |bars|
    ensures DecisionAt(bars, first, i).Some? <==> Deciding(bars, i)
    ensures DecisionAt(bars, first, i).Some? ==>
              var d := DecisionAt(bars, first, i).value;
              && d.p == bars[i - 1] && d.prior == bars[i - 20..i]
              && d.priorEma == IndicatorRow(bars, i - 1).ema20 && d.row == IndicatorRow(bars, i)
  {
    hide ContextAt, IndicatorRow, Moved;
    if Warm(bars, i) {
      AtrDecides(bars, i);
    }
  }

  // ---------- structure breaks ----------

  /** The close goes from one side of the level to the other. */
  ghost predicate Through(side: Side, before: real, now: real, level: real) {
    if side == Long then before <= level < now else before >= level > now
  }

  lemma CrossesThrough(side: Side, before: real, now: real, level: real)
    ensures Crosses(side, before, now, level) <==> Through(side, before, now, level)
  {
  }

  /** The close goes through the latest swing on a deciding bar, while there is a trend. */
  ghost predicate Broken(bars: seq<Slot>, i: nat, side: Side, a: nat)
    requires i < |bars|
  {
    && Deciding(bars, i) && (Rising(bars, i) || Falling(bars, i))
    && Latest(bars, a, side == Short, i)
    && Through(side, bars[i - 1].close, bars[i].close, if side == Long then bars[a].high else bars[a].low)
  }

  ghost predicate Breaks(bars: seq<Slot>, i: nat, side: Side, hash: string)
    requires i < |bars|
  {
    exists a: nat :: Broken(bars, i, side, a) && bars[a].hash == hash
  }

  /** A swing of that content was broken that way on an earlier bar. */
  ghost predicate BrokenBefore(bars: seq<Slot>, n: nat, side: Side, hash: string)
    requires n <= |bars|
  {
    exists j: nat :: j < n && Breaks(bars, j, side, hash)
  }

  ghost predicate UsedExactly(bars: seq<Slot>, st: State, n: nat)
    requires n <= |bars|
  {
    forall side, hash :: (side, hash) in st.used <==> BrokenBefore(bars, n, side, hash)
  }

  lemma BreakOfAnchor(st: State, d: Decision, r: Slot, side: Side, hash: string)
    ensures var anchors := if side == Long then st.hi else st.lo;
            BreakOf(st, d, r, side) == Some(hash)
            <==> && anchors != [] && Structure(st.lo, st.hi).Some?
                 && Through(side, d.p.close, r.close, anchors[|anchors| - 1].price)
                 && anchors[|anchors| - 1].hash == hash && (side, hash) !in st.used
  {
    hide Structure, Crosses, Through;
    var anchors := if side == Long then st.hi else st.lo;
    if anchors != [] {
      CrossesThrough(side, d.p.close, r.close, anchors[|anchors| - 1].price);
    }
  }

  lemma AnchorBroken(bars: seq<Slot>, anchors: seq<Anchor>, i: nat, side: Side, hash: string)
    requires i < |bars| && Exhaustive(bars, anchors, side == Short, i)
    requires Deciding(bars, i) && (Rising(bars, i) || Falling(bars, i))
    ensures Breaks(bars, i, side, hash)
            <==> && anchors != []
                 && Through(side, bars[i - 1].close, bars[i].close, anchors[|anchors| - 1].price)
                 && anchors[|anchors| - 1].hash == hash
  {
    LastAnchor(bars, anchors, side == Short, i);
    PricesOf(bars, anchors, side == Short, i);
    hide Exhaustive, Latest, Rising, Falling, Deciding, Through;
    if anchors != [] {
      var z: nat := anchors[|anchors| - 1].index;
      assert Through(side, bars[i - 1].close, bars[i].close, anchors[|anchors| - 1].price) ==> Broken(bars, i, side, z);
    }
  }

  lemma BreakExactly(bars: seq<Slot>, first: int, i: nat, st: State, side: Side, hash: string)
    requires i < |bars| && AllSwings(bars, st, i) && DecisionAt(bars, first, i).Some?
    ensures BreakOf(st, DecisionAt(bars, first, i).value, bars[i], side) == Some(hash)
            <==> (side, hash) !in st.used && Breaks(bars, i, side, hash)
  {
    hide *;
    SwingParts(bars, st, i);
    TrendExactly(bars, st, i);
    DecidesExactly(bars, first, i);
    BreakOfAnchor(st, DecisionAt(bars, first, i).value, bars[i], side, hash);
    if Rising(bars, i) || Falling(bars, i) {
      AnchorBroken(bars, if side == Short then st.lo else st.hi, i, side, hash);
    } else {
      var trend := Structure(st.lo, st.hi);
      if trend.Some? {
        match trend.value {
          case Long =>
          case Short =>
        }
      }
      NoTrend(bars, i, side, hash);
    }
  }

  lemma SwingParts(bars: seq<Slot>, st: State, n: nat)
    requires n <= |bars| && AllSwings(bars, st, n)
    ensures Exhaustive(bars, st.lo, true, n) && Exhaustive(bars, st.hi, false, n)
  {
  }

  lemma NoTrend(bars: seq<Slot>, i: nat, side: Side, hash: string)
    requires i < |bars| && !Rising(bars, i) && !Falling(bars, i)
    ensures !Breaks(bars, i, side, hash)
  {
    hide Deciding, Rising, Falling, Latest, Through;
  }

  lemma NoneBroken(bars: seq<Slot>, first: int, i: nat, side: Side, hash: string)
    requires i < |bars| && DecisionAt(bars, first, i).None?
    ensures !Breaks(bars, i, side, hash)
  {
    DecidesExactly(bars, first, i);
    hide Deciding, DecisionAt, Rising, Falling, Latest;
  }

  lemma BrokenGrows(bars: seq<Slot>, i: nat, side: Side, hash: string)
    requires i < |bars|
    ensures BrokenBefore(bars, i + 1, side, hash) <==> BrokenBefore(bars, i, side, hash) || Breaks(bars, i, side, hash)
  {
    hide Breaks;
  }

  lemma NewKeys(st: State, d: Decision, r: Slot, i: int, side: Side, hash: string)
    ensures (side, hash) in Keys(NewHits(st, d, r, i)) <==> BreakOf(st, d, r, side) == Some(hash)
  {
    hide BreakOf;
    var hits := NewHits(st, d, r, i);
    var long, short := HitsOn(st, d, r, Long, i), HitsOn(st, d, r, Short, i);
    assert forall h :: h in hits <==> h in long || h in short;
    if BreakOf(st, d, r, side) == Some(hash) {
      assert BreakHit(side, hash, i) in if side == Long then long else short;
    }
  }

  /** The used set is exactly what was broken on the bars so far. */
  lemma {:induction false} UsedIsBroken(bars: seq<Slot>, first: int, n: nat)
    requires n <= |bars|
    ensures UsedExactly(bars, Run(bars, first, n), n)
  {
    hide *;
    if n == 0 {
      Laws.RunStart(bars, first);
      NothingUsed(bars);
    } else {
      Laws.RunStep(bars, first, n);
      UsedIsBroken(bars, first, n - 1);
      AnchorsAreSwings(bars, first, n - 1);
      BarUses(bars, first, n - 1, Run(bars, first, n - 1));
    }
  }

  lemma NothingUsed(bars: seq<Slot>)
    ensures UsedExactly(bars, INITIAL, 0)
  {
  }

  lemma BarUses(bars: seq<Slot>, first: int, i: nat, st: State)
    requires i < |bars| && AllSwings(bars, st, i) && UsedExactly(bars, st, i)
    requires AnchorsBefore(st.lo, i) && AnchorsBefore(st.hi, i)
    ensures UsedExactly(bars, Step(See(bars, first, i), i, st), i + 1)
  {
    hide Step, Refresh, NewHits, Keys, EmitFrom, BrokenBefore, Breaks, AllSwings, BreakOf, DecisionAt;
    var s := See(bars, first, i);
    var t := Step(s, i, st);
    Laws.StepFields(s, i, st);
    forall side, hash ensures (side, hash) in t.used <==> BrokenBefore(bars, i + 1, side, hash) {
      BrokenGrows(bars, i, side, hash);
      if s.Bad? {
        BadUndecided(bars, first, i);
      }
      if DecisionAt(bars, first, i).None? {
        NoneBroken(bars, first, i, side, hash);
      } else {
        NewKeys(st, s.decision.value, bars[i], i, side, hash);
        BreakExactly(bars, first, i, st, side, hash);
      }
    }
  }

  lemma BadUndecided(bars: seq<Slot>, first: int, i: nat)
    requires i < |bars| && !bars[i].eligible
    ensures DecisionAt(bars, first, i).None?
  {
  }

  // ---------- the five detectors ----------

  /** The close leaves the range of the twenty bars before, from within it. */
  ghost predicate BreaksOut(bars: seq<Slot>, i: nat, side: Side)
    requires 20 <= i < |bars|
  {
    if side == Long then
      && (forall k :: i - 20 <= k < i ==> bars[k].high < bars[i].close)
      && exists k :: i - 20 <= k < i && bars[i - 1].close <= bars[k].high
    else
      && (forall k :: i - 20 <= k < i ==> bars[k].low > bars[i].close)
      && exists k :: i - 20 <= k < i && bars[i - 1].close >= bars[k].low
  }

  /** The wick leaves that range, the close comes back into it, and into the outer
      forty percent of the bar away from the wick. */
  ghost predicate RejectsWick(bars: seq<Slot>, i: nat, side: Side)
    requires 20 <= i < |bars|
  {
    var r := bars[i];
    if side == Long then
      && (forall k :: i - 20 <= k < i ==> bars[k].low > r.low)
      && (exists k :: i - 20 <= k < i && bars[k].low < r.close)
      && r.close > r.open && r.high > r.low && r.close - r.low >= 0.6 * (r.high - r.low)
    else
      && (forall k :: i - 20 <= k < i ==> bars[k].high < r.high)
      && (exists k :: i - 20 <= k < i && bars[k].high > r.close)
      && r.close < r.open && r.high > r.low && r.high - r.close >= 0.6 * (r.high - r.low)
  }

  /** The close comes from the other side of its own average. */
  ghost predicate Reclaims(bars: seq<Slot>, i: nat, side: Side)
    requires 1 <= i < |bars| && bars[i - 1].eligible && bars[i].eligible
  {
    var was, now := IndicatorRow(bars, i - 1).ema20, IndicatorRow(bars, i).ema20;
    && was.Some? && now.Some?
    && if side == Long then bars[i - 1].close <= was.value && now.value < bars[i].close
       else bars[i - 1].close >= was.value && now.value > bars[i].close
  }

  /** A swing breaks whose like was not broken that way before. */
  ghost predicate FirstBreak(bars: seq<Slot>, i: nat, side: Side)
    requires i < |bars|
  {
    exists a: nat :: Broken(bars, i, side, a) && !BrokenBefore(bars, i, side, bars[a].hash)
  }

  ghost predicate Detected(bars: seq<Slot>, i: nat, family: Family, side: Side)
    requires i < |bars|
  {
    && Deciding(bars, i)
    && match family
       case Breakout20 => BreaksOut(bars, i, side)
       case WickReversal20 => RejectsWick(bars, i, side)
       case Ema20Reclaim => Reclaims(bars, i, side)
       case Bos3 => FirstBreak(bars, i, side) && if side == Long then Rising(bars, i) else Falling(bars, i)
       case Choch3 => FirstBreak(bars, i, side) && if side == Long then Falling(bars, i) else Rising(bars, i)
  }

  lemma RangeOnBars(bars: seq<Slot>, d: Decision, i: nat, x: real)
    requires 20 <= i < |bars| && d.prior == bars[i - 20..i]
    ensures RangeHigh(d) < x <==> forall k :: i - 20 <= k < i ==> bars[k].high < x
    ensures RangeHigh(d) >= x <==> exists k :: i - 20 <= k < i && bars[k].high >= x
    ensures RangeHigh(d) > x <==> exists k :: i - 20 <= k < i && bars[k].high > x
    ensures RangeLow(d) > x <==> forall k :: i - 20 <= k < i ==> bars[k].low > x
    ensures RangeLow(d) <= x <==> exists k :: i - 20 <= k < i && bars[k].low <= x
    ensures RangeLow(d) < x <==> exists k :: i - 20 <= k < i && bars[k].low < x
  {
    var hs, ls := SlotHighs(d.prior), SlotLows(d.prior);
    var h :| 0 <= h < 20 && hs[h] == RangeHigh(d);
    var l :| 0 <= l < 20 && ls[l] == RangeLow(d);
    assert forall k :: i - 20 <= k < i ==> hs[k - (i - 20)] == bars[k].high && ls[k - (i - 20)] == bars[k].low;
    assert bars[i - 20 + h].high == RangeHigh(d) && bars[i - 20 + l].low == RangeLow(d);
    hide MaxOf, MinOf;
  }

  lemma OuterOnBar(r: Slot, side: Side)
    ensures OuterClose(side, r)
            <==> r.high > r.low && 0.6 * (r.high - r.low) <= if side == Long then r.close - r.low else r.high - r.close
  {
    var width := r.high - r.low;
    if width > 0.0 {
      Fraction(r.close - r.low, width);
      Fraction(r.high - r.close, width);
    }
  }

  lemma Fraction(x: real, width: real)
    requires width > 0.0
    ensures x / width >= 0.6 <==> x >= 0.6 * width
  {
    assert x / width * width == x;
  }

  lemma BrokenOnTape(bars: seq<Slot>, i: nat, side: Side)
    requires i < |bars|
    ensures forall a: nat :: Broken(bars, i, side, a) ==> a < i
  {
    LatestBefore(bars, side == Short, i);
    hide Latest, Deciding, Rising, Falling, Through;
  }

  lemma LatestBefore(bars: seq<Slot>, low: bool, n: nat)
    requires n <= |bars|
    ensures forall a: nat :: Latest(bars, a, low, n) ==> a < n
  {
  }

  lemma FirstBreakTrends(bars: seq<Slot>, i: nat, side: Side)
    requires i < |bars| && FirstBreak(bars, i, side)
    ensures Rising(bars, i) || Falling(bars, i)
  {
    hide Latest, Deciding, Rising, Falling, Through, BrokenBefore;
  }

  lemma FirstBreakExactly(bars: seq<Slot>, first: int, i: nat, st: State, side: Side)
    requires i < |bars| && AllSwings(bars, st, i) && UsedExactly(bars, st, i) && DecisionAt(bars, first, i).Some?
    ensures BreakOf(st, DecisionAt(bars, first, i).value, bars[i], side).Some? <==> FirstBreak(bars, i, side)
  {
    hide AllSwings, DecisionAt, BreakOf, Broken, BrokenBefore;
    var b := BreakOf(st, DecisionAt(bars, first, i).value, bars[i], side);
    if b.Some? {
      BreakExactly(bars, first, i, st, side, b.value);
    }
    BrokenOnTape(bars, i, side);
    if a: nat :| Broken(bars, i, side, a) && !BrokenBefore(bars, i, side, bars[a].hash) {
      BreakExactly(bars, first, i, st, side, bars[a].hash);
    }
  }

  /** What the detectors read off the state is what they mean on the bars. */
  lemma FiresExactly(bars: seq<Slot>, first: int, i: nat, st: State, family: Family, side: Side)
    requires i < |bars| && AllSwings(bars, st, i) && UsedExactly(bars, st, i) && DecisionAt(bars, first, i).Some?
    ensures Fires(family, st, DecisionAt(bars, first, i).value, bars[i], side) <==> Detected(bars, i, family, side)
  {
    hide AllSwings, UsedExactly, DecisionAt, BreakOf, FirstBreak, Structure, OuterClose, RangeHigh, RangeLow, Rising,
      Falling, IndicatorRow, Deciding;
    var d := DecisionAt(bars, first, i).value;
    DecidesExactly(bars, first, i);
    match family {
      case Breakout20 =>
        RangeOnBars(bars, d, i, bars[i].close);
        RangeOnBars(bars, d, i, bars[i - 1].close);
      case WickReversal20 =>
        RangeOnBars(bars, d, i, bars[i].close);
        RangeOnBars(bars, d, i, bars[i].low);
        RangeOnBars(bars, d, i, bars[i].high);
        OuterOnBar(bars[i], side);
      case Ema20Reclaim =>
      case Bos3 =>
        TrendExactly(bars, st, i);
        FirstBreakExactly(bars, first, i, st, side);
      case Choch3 =>
        TrendExactly(bars, st, i);
        FirstBreakExactly(bars, first, i, st, side);
        if FirstBreak(bars, i, side) {
          FirstBreakTrends(bars, i, side);
        }
    }
  }

  /** No detector fires both ways on one bar. */
  lemma OneSide(bars: seq<Slot>, i: nat, family: Family)
    requires i < |bars| && forall k :: 0 <= k < |bars| ==> bars[k].low <= bars[k].high
    ensures !(Detected(bars, i, family, Long) && Detected(bars, i, family, Short))
  {
  }

  // ---------- the events of a run ----------

  ghost predicate Has(events: seq<Event>, i: int, family: Family, side: Side) {
    exists e :: e in events && e.index == i && e.family == family && e.side == side
  }

  lemma EmitHas(family: Family, s: Seen, d: Decision, i: int, before: State, after: State, f: Family, side: Side)
    requires s.Seen? && |d.prior| == 20
    requires AnchorsBefore(after.lo, i + 1) && AnchorsBefore(after.hi, i + 1)
    ensures Has(Emit(family, s, d, i, before, after), i, f, side)
            <==> f == family && Fires(f, before, d, s.r, side) && !Fires(f, before, d, s.r, Opposite(side))
  {
    hide Fires, EventFeatures, Score;
    var e := Emit(family, s, d, i, before, after);
    if f == family && Fires(f, before, d, s.r, side) && !Fires(f, before, d, s.r, Opposite(side)) {
      assert e[0] in e && e[0].side == side;
    }
  }

  lemma {:induction false} EmitFromHas(k: nat, s: Seen, d: Decision, i: int, before: State, after: State, f: Family,
                                       side: Side)
    requires s.Seen? && |d.prior| == 20 && k <= |FAMILIES|
    requires AnchorsBefore(after.lo, i + 1) && AnchorsBefore(after.hi, i + 1)
    ensures Has(EmitFrom(k, s, d, i, before, after), i, f, side)
            <==> k <= Laws.Place(f) && Fires(f, before, d, s.r, side) && !Fires(f, before, d, s.r, Opposite(side))
    decreases |FAMILIES| - k
  {
    hide Fires, Emit, Laws.Place;
    PlaceHere(k, f);
    if k < |FAMILIES| {
      EmitFromHas(k + 1, s, d, i, before, after, f, side);
      EmitHas(FAMILIES[k], s, d, i, before, after, f, side);
      HasAppend(Emit(FAMILIES[k], s, d, i, before, after), EmitFrom(k + 1, s, d, i, before, after), i, f, side);
    }
  }

  lemma PlaceHere(k: nat, f: Family)
    ensures Laws.Place(f) < |FAMILIES|
    ensures k < |FAMILIES| ==> (Laws.Place(f) == k <==> FAMILIES[k] == f)
  {
  }

  lemma HasAppend(a: seq<Event>, b: seq<Event>, i: int, f: Family, side: Side)
    ensures Has(a + b, i, f, side) <==> Has(a, i, f, side) || Has(b, i, f, side)
  {
    assert forall e :: e in a + b <==> e in a || e in b;
  }

  lemma HasOnlyLate(events: seq<Event>, i: int, f: Family, side: Side)
    requires forall k :: 0 <= k < |events| ==> events[k].index != i
    ensures !Has(events, i, f, side)
  {
  }

  lemma BarHas(bars: seq<Slot>, first: int, i: nat, st: State, f: Family, side: Side)
    requires i < |bars| && AllSwings(bars, st, i) && UsedExactly(bars, st, i)
    requires AnchorsBefore(st.lo, i) && AnchorsBefore(st.hi, i)
    requires forall k :: 0 <= k < |st.events| ==> st.events[k].index < i
    ensures Has(Step(See(bars, first, i), i, st).events, i, f, side)
            <==> Detected(bars, i, f, side) && !Detected(bars, i, f, Opposite(side))
  {
    hide Step, Refresh, NewHits, Keys, EmitFrom, AllSwings, UsedExactly, Detected, DecisionAt, Fires, Has, Laws.Place;
    var s := See(bars, first, i);
    Laws.StepFields(s, i, st);
    HasOnlyLate(st.events, i, f, side);
    if s.Bad? {
      BadUndecided(bars, first, i);
    }
    if DecisionAt(bars, first, i).None? {
      Undetected(bars, first, i, f, side);
    } else {
      var d := s.decision.value;
      PlaceHere(0, f);
      EmitFromHas(0, s, d, i, st, Refresh(s, i, st), f, side);
      HasAppend(st.events, EmitFrom(0, s, d, i, st, Refresh(s, i, st)), i, f, side);
      FiresExactly(bars, first, i, st, f, side);
      FiresExactly(bars, first, i, st, f, Opposite(side));
    }
  }

  lemma Undetected(bars: seq<Slot>, first: int, i: nat, f: Family, side: Side)
    requires i < |bars| && DecisionAt(bars, first, i).None?
    ensures !Detected(bars, i, f, side)
  {
    hide DecisionAt, Deciding, BreaksOut, RejectsWick, Reclaims, FirstBreak;
    DecidesExactly(bars, first, i);
  }

  lemma HasPrefix(early: seq<Event>, all: seq<Event>, i: int, f: Family, side: Side)
    requires early <= all && forall k :: |early| <= k < |all| ==> all[k].index > i
    ensures Has(all, i, f, side) <==> Has(early, i, f, side)
  {
    forall e | e in all && e.index == i ensures e in early {
      var k :| 0 <= k < |all| && all[k] == e;
      assert early[k] == e;
    }
  }

  /** For every calendar, bar, detector and side: the run has that event exactly when
      the bars show it, and not on the other side as well. */
  lemma EventsExactly(bars: seq<Slot>, first: int, n: nat, i: nat, f: Family, side: Side)
    requires i < n <= |bars|
    ensures Has(Run(bars, first, n).events, i, f, side)
            <==> Detected(bars, i, f, side) && !Detected(bars, i, f, Opposite(side))
  {
    hide *;
    var st := Run(bars, first, i);
    AnchorsAreSwings(bars, first, i);
    UsedIsBroken(bars, first, i);
    Laws.EventsGrow(bars, first, i, i);
    Laws.RunStep(bars, first, i + 1);
    BarHas(bars, first, i, st, f, side);
    Laws.EventsGrow(bars, first, i + 1, n);
    HasPrefix(Run(bars, first, i + 1).events, Run(bars, first, n).events, i, f, side);
  }

  /** On bars whose low is not above their high that is just when the bars show it. */
  lemma EventsOnTapes(bars: seq<Slot>, first: int, n: nat, i: nat, f: Family, side: Side)
    requires i < n <= |bars| && forall k :: 0 <= k < |bars| ==> bars[k].low <= bars[k].high
    ensures Has(Run(bars, first, n).events, i, f, side) <==> Detected(bars, i, f, side)
  {
    hide *;
    EventsExactly(bars, first, n, i, f, side);
    OneSide(bars, i, f);
    match side {
      case Long => assert Opposite(side) == Short by { OppositeSides(); }
      case Short => assert Opposite(side) == Long by { OppositeSides(); }
    }
  }

  lemma OppositeSides()
    ensures Opposite(Long) == Short && Opposite(Short) == Long
  {
  }

  // ---------- the counters ----------

  ghost function Count(bars: seq<Slot>, n: nat, bad: bool): nat
    requires n <= |bars|
  {
    if n == 0 then 0
    else
      Count(bars, n - 1, bad)
      + if (if bad then !bars[n - 1].eligible else bars[n - 1].eligible && !Deciding(bars, n - 1)) then 1 else 0
  }

  /** Bad slots and warm-up bars are counted exactly. */
  lemma {:induction false} CountersExactly(bars: seq<Slot>, first: int, n: nat)
    requires n <= |bars|
    ensures Run(bars, first, n).invalid == Count(bars, n, true) && Run(bars, first, n).warmup == Count(bars, n, false)
  {
    hide Run, See, Step, DecisionAt, Deciding;
    if n == 0 {
      Laws.RunStart(bars, first);
    } else {
      CountersExactly(bars, first, n - 1);
      DecidesExactly(bars, first, n - 1);
      Laws.RunStep(bars, first, n);
      BarCounts(bars, first, n - 1, Run(bars, first, n - 1));
    }
  }

  lemma BarCounts(bars: seq<Slot>, first: int, i: nat, st: State)
    requires i < |bars| && AnchorsBefore(st.lo, i) && AnchorsBefore(st.hi, i)
    ensures var t := Step(See(bars, first, i), i, st);
            && t.invalid == st.invalid + (if bars[i].eligible then 0 else 1)
            && t.warmup == st.warmup + if bars[i].eligible && DecisionAt(bars, first, i).None? then 1 else 0
  {
    hide DecisionAt, LowPivot, HighPivot, GapAbove, GapBelow, EmitFrom, NewHits, Keys, Confirm, Form, AgeUp, AgeDown;
  }
}
