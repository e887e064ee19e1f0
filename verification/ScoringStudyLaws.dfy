/** Whole-run laws of the scoring study: no look-ahead across the two clocks,
    nothing carried across a data gap, anchor hygiene and one-shot breaks. */
module ScoringStudyLaws {
  import opened Common
  import opened Indicators
  import opened HourlyContext
  import opened ScoringStudy

  // ---------- no look-ahead ----------

  lemma PivotsCausal(a: seq<Slot>, b: seq<Slot>, i: nat)
    requires i < |a| && i < |b| && forall k :: 0 <= k <= i ==> a[k] == b[k]
    ensures LowPivot(a, i) == LowPivot(b, i) && HighPivot(a, i) == HighPivot(b, i)
    ensures GapAbove(a, i) == GapAbove(b, i) && GapBelow(a, i) == GapBelow(b, i)
  {
    hide IndicatorRow;
    if Unbroken(a, i, 6) {
      IndicatorCausal(a, b, i - 3);
    }
  }

  lemma DecisionCausal(a: seq<Slot>, b: seq<Slot>, first: int, i: nat)
    requires i < |a| && i < |b| && forall k :: 0 <= k <= i ==> a[k] == b[k]
    ensures DecisionAt(a, first, i) == DecisionAt(b, first, i)
  {
    hide IndicatorRow, ContextAt;
    if Warm(a, i) {
      assert Warm(b, i);
      IndicatorCausal(a, b, i);
      IndicatorCausal(a, b, i - 1);
      ContextCausal(a, b, first, i);
      assert a[i - 20..i] == b[i - 20..i];
    } else {
      assert !Warm(b, i);
    }
  }

  /** Everything bar i looks at, hourly context included, is fixed by the bars up to i. */
  lemma SeeCausal(a: seq<Slot>, b: seq<Slot>, first: int, i: nat)
    requires i < |a| && i < |b| && forall k :: 0 <= k <= i ==> a[k] == b[k]
    ensures See(a, first, i) == See(b, first, i)
  {
    hide LowPivot, HighPivot, GapAbove, GapBelow, DecisionAt;
    PivotsCausal(a, b, i);
    DecisionCausal(a, b, first, i);
  }

  lemma {:induction false} RunCausal(a: seq<Slot>, b: seq<Slot>, first: int, n: nat)
    requires n <= |a| && n <= |b| && forall k :: 0 <= k < n ==> a[k] == b[k]
    ensures Run(a, first, n) == Run(b, first, n)
  {
    hide See, Step;
    if n > 0 {
      SeeCausal(a, b, first, n - 1);
      RunCausal(a, b, first, n - 1);
    }
  }

  lemma RunStart(bars: seq<Slot>, first: int)
    ensures Run(bars, first, 0) == INITIAL && Run(bars, first, 0).events == []
    ensures Hygienic(bars, INITIAL, 0) && OneShot(INITIAL) && BreaksLogged(INITIAL) && OrderedEvents(INITIAL)
  {
    hide See, Step;
  }

  lemma RunStep(bars: seq<Slot>, first: int, n: nat)
    requires 0 < n <= |bars|
    ensures Run(bars, first, n) == Step(See(bars, first, n - 1), n - 1, Run(bars, first, n - 1))
  {
    hide See, Step;
  }

  /** The three outcomes of a bar, field by field. */
  lemma StepFields(s: Seen, i: int, st: State)
    requires s.Seen? && s.decision.Some? ==> |s.decision.value.prior| == 20
    requires AnchorsBefore(st.lo, i) && AnchorsBefore(st.hi, i)
    ensures var r := Step(s, i, st);
      if s.Bad? then
        && r.lo == [] && r.hi == [] && r.up == None && r.down == None
        && r.used == st.used && r.hits == st.hits && r.events == st.events
      else
        var a := Refresh(s, i, st);
        && r.lo == a.lo && r.hi == a.hi && r.up == a.up && r.down == a.down
        && if s.decision.None? then r.used == st.used && r.hits == st.hits && r.events == st.events
           else
             var d := s.decision.value;
             && r.used == st.used + Keys(NewHits(st, d, s.r, i))
             && r.hits == st.hits + NewHits(st, d, s.r, i)
             && r.events == st.events + EmitFrom(0, s, d, i, st, a)
  {
    hide EmitFrom, NewHits, Keys, Confirm, Form, AgeUp, AgeDown;
  }

  lemma StepAppends(s: Seen, i: int, st: State)
    requires s.Seen? && s.decision.Some? ==> |s.decision.value.prior| == 20
    requires AnchorsBefore(st.lo, i) && AnchorsBefore(st.hi, i)
    ensures st.events <= Step(s, i, st).events
    ensures forall k :: |st.events| <= k < |Step(s, i, st).events| ==> Step(s, i, st).events[k].index == i
  {
    hide Step, Refresh, EmitFrom, NewHits, Keys;
    StepFields(s, i, st);
  }

  /** Later bars only append events, each stamped with its own bar. */
  lemma {:induction false} EventsGrow(bars: seq<Slot>, first: int, m: nat, n: nat)
    requires m <= n <= |bars|
    ensures var early, all := Run(bars, first, m).events, Run(bars, first, n).events;
            && early <= all
            && (forall k :: 0 <= k < |early| ==> all[k].index < m)
            && (forall k :: |early| <= k < |all| ==> m <= all[k].index < n)
    decreases n
  {
    hide *;
    if m == n == 0 {
      RunStart(bars, first);
    } else if m < n {
      RunStep(bars, first, n);
      EventsGrow(bars, first, m, n - 1);
      StepAppends(See(bars, first, n - 1), n - 1, Run(bars, first, n - 1));
    } else {
      RunStep(bars, first, n);
      EventsGrow(bars, first, n - 1, n - 1);
      StepAppends(See(bars, first, n - 1), n - 1, Run(bars, first, n - 1));
    }
  }

  /** Running the study on the first n slots yields exactly the events of the
      full study decided before slot n: same order, regime, hashes and scores. */
  lemma {:induction false} NoLookAhead(index: seq<int>, bars: seq<Slot>, n: nat)
    requires |index| == |bars| && n <= |bars|
    requires Study(index, bars).Generated?
    ensures Study(index[..n], bars[..n]).Generated?
    ensures var early, all := Study(index[..n], bars[..n]).state.events, Study(index, bars).state.events;
            && early <= all
            && (forall k :: 0 <= k < |early| ==> all[k].index < n)
            && (forall k :: |early| <= k < |all| ==> all[k].index >= n)
  {
    hide Run;
    var first := FirstSlot(index);
    assert Increasing(index[..n]) && EverySlot(index[..n]) && OnlyClosed(bars[..n]);
    if n > 0 {
      RunCausal(bars[..n], bars, first, n);
      EventsGrow(bars, first, n, |bars|);
    } else {
      RunCausal(bars[..n], bars, 0, 0);
      RunOfNothing(bars[..n], 0, bars, first);
      EventsGrow(bars, first, 0, |bars|);
    }
  }

  lemma RunOfNothing(a: seq<Slot>, u: int, b: seq<Slot>, v: int)
    ensures Run(a, u, 0) == Run(b, v, 0)
  {
  }

  // ---------- anchor and gap hygiene ----------

  ghost predicate EligibleFrom(bars: seq<Slot>, lo: int, n: nat)
    requires n <= |bars|
  {
    0 <= lo && forall k :: lo <= k < n ==> bars[k].eligible
  }

  /** The anchor is a strict three-by-three pivot of bars that are all eligible,
      and no bar since has been a data gap. */
  ghost predicate Grounded(bars: seq<Slot>, a: Anchor, low: bool, n: nat)
    requires n <= |bars|
  {
    && a.confirmed == a.index + 3 < n
    && EligibleFrom(bars, a.index - 3, n)
    && a.hash == bars[a.index].hash
    && a.price == (if low then bars[a.index].low else bars[a.index].high)
    && forall k :: a.index - 3 <= k <= a.index + 3 && k != a.index ==>
         if low then bars[k].low > a.price else bars[k].high < a.price
  }

  /** The gap is a three-bar gap at most twelve bars old whose far edge no close
      has crossed since it formed. */
  ghost predicate Open(bars: seq<Slot>, g: Gap, up: bool, n: nat)
    requires n <= |bars|
  {
    && g.created < n <= g.created + 13
    && EligibleFrom(bars, g.created - 2, n)
    && g.low < g.high
    && (if up then g.low == bars[g.created - 2].high && g.high == bars[g.created].low
        else g.high == bars[g.created - 2].low && g.low == bars[g.created].high)
    && forall k :: g.created < k < n ==>
         if up then bars[k].close >= g.low else bars[k].close <= g.high
  }

  ghost predicate Hygienic(bars: seq<Slot>, st: State, n: nat)
    requires n <= |bars|
  {
    && AnchorsBefore(st.lo, n) && AnchorsBefore(st.hi, n)
    && (forall k :: 0 <= k < |st.lo| ==> Grounded(bars, st.lo[k], true, n))
    && (forall k :: 0 <= k < |st.hi| ==> Grounded(bars, st.hi[k], false, n))
    && (st.up.Some? ==> Open(bars, st.up.value, true, n))
    && (st.down.Some? ==> Open(bars, st.down.value, false, n))
  }

  lemma AnchorStays(bars: seq<Slot>, a: Anchor, low: bool, n: nat)
    requires n < |bars| && Grounded(bars, a, low, n) && bars[n].eligible
    ensures Grounded(bars, a, low, n + 1)
  {
  }

  lemma NewAnchorGrounded(bars: seq<Slot>, i: nat, rsi: Option<real>)
    requires i < |bars|
    ensures LowPivot(bars, i).Some? ==>
              Grounded(bars, Anchor(i - 3, i, LowPivot(bars, i).value.price, LowPivot(bars, i).value.hash, rsi), true,
                       i + 1)
    ensures HighPivot(bars, i).Some? ==>
              Grounded(bars, Anchor(i - 3, i, HighPivot(bars, i).value.price, HighPivot(bars, i).value.hash, rsi),
                       false, i + 1)
  {
    hide IndicatorRow;
  }

  lemma ConfirmGrounded(bars: seq<Slot>, anchors: seq<Anchor>, low: bool, i: nat)
    requires i < |bars| && bars[i].eligible && AnchorsBefore(anchors, i)
    requires forall k :: 0 <= k < |anchors| ==> Grounded(bars, anchors[k], low, i)
    ensures var r := Confirm(anchors, if low then LowPivot(bars, i) else HighPivot(bars, i), i);
            forall k :: 0 <= k < |r| ==> Grounded(bars, r[k], low, i + 1)
  {
    hide LowPivot, HighPivot, Grounded, AnchorsBefore;
    var pivot := if low then LowPivot(bars, i) else HighPivot(bars, i);
    var r := Confirm(anchors, pivot, i);
    forall k | 0 <= k < |anchors| ensures Grounded(bars, anchors[k], low, i + 1) {
      AnchorStays(bars, anchors[k], low, i);
    }
    if pivot.Some? {
      NewAnchorGrounded(bars, i, pivot.value.rsi);
    }
  }

  lemma GapsOpen(bars: seq<Slot>, up: Option<Gap>, down: Option<Gap>, i: nat)
    requires i < |bars| && bars[i].eligible
    requires up.Some? ==> Open(bars, up.value, true, i)
    requires down.Some? ==> Open(bars, down.value, false, i)
    ensures var g := Form(AgeUp(up, bars[i], i), GapAbove(bars, i), i); g.Some? ==> Open(bars, g.value, true, i + 1)
    ensures var g := Form(AgeDown(down, bars[i], i), GapBelow(bars, i), i);
            g.Some? ==> Open(bars, g.value, false, i + 1)
  {
  }

  /** At every bar: at most two anchors a side, in strictly increasing index
      order, all bars since three before the oldest eligible; gaps fresh and
      unviolated. In particular no trendline slope divides by zero. */
  lemma {:induction false} AnchorHygiene(bars: seq<Slot>, first: int, n: nat)
    requires n <= |bars|
    ensures Hygienic(bars, Run(bars, first, n), n)
  {
    hide *;
    if n == 0 {
      RunStart(bars, first);
    } else {
      RunStep(bars, first, n);
      AnchorHygiene(bars, first, n - 1);
      StepHygiene(bars, first, n - 1, Run(bars, first, n - 1));
    }
  }

  lemma StepHygiene(bars: seq<Slot>, first: int, i: nat, st: State)
    requires i < |bars| && Hygienic(bars, st, i)
    ensures Hygienic(bars, Step(See(bars, first, i), i, st), i + 1)
  {
    hide Grounded, Open, See, Step, Refresh;
    StepFields(See(bars, first, i), i, st);
    if bars[i].eligible {
      RefreshHygiene(bars, first, i, st);
    }
  }

  lemma RefreshHygiene(bars: seq<Slot>, first: int, i: nat, st: State)
    requires i < |bars| && bars[i].eligible && Hygienic(bars, st, i)
    ensures Hygienic(bars, Refresh(See(bars, first, i), i, st), i + 1)
  {
    hide Grounded, Open, LowPivot, HighPivot, GapAbove, GapBelow, Form, AgeUp, AgeDown, DecisionAt;
    ConfirmGrounded(bars, st.lo, true, i);
    ConfirmGrounded(bars, st.hi, false, i);
    GapsOpen(bars, st.up, st.down, i);
    hide Confirm;
  }

  // ---------- one-shot breaks ----------

  ghost predicate OneShot(st: State) {
    && st.used == Keys(st.hits)
    && forall j, k :: 0 <= j < k < |st.hits| ==>
         (st.hits[j].side, st.hits[j].hash) != (st.hits[k].side, st.hits[k].hash)
  }

  /** Each (side, anchor hash) is broken at most once in the whole run, data gaps
      included, whether as BOS or as CHOCH. */
  lemma {:induction false} OneShotBreaks(bars: seq<Slot>, first: int, n: nat)
    requires n <= |bars|
    ensures OneShot(Run(bars, first, n))
  {
    hide *;
    if n == 0 {
      RunStart(bars, first);
    } else {
      RunStep(bars, first, n);
      OneShotBreaks(bars, first, n - 1);
      StepOneShot(See(bars, first, n - 1), n - 1, Run(bars, first, n - 1));
    }
  }

  lemma StepOneShot(s: Seen, i: int, st: State)
    requires s.Seen? && s.decision.Some? ==> |s.decision.value.prior| == 20
    requires AnchorsBefore(st.lo, i) && AnchorsBefore(st.hi, i)
    requires OneShot(st)
    ensures OneShot(Step(s, i, st))
  {
    hide Step, Refresh, NewHits, Keys, EmitFrom;
    StepFields(s, i, st);
    if s.Seen? && s.decision.Some? {
      NewHitsUnused(st, s.decision.value, s.r, i);
      KeysAppend(st.hits, NewHits(st, s.decision.value, s.r, i));
    }
  }

  lemma NewHitsUnused(st: State, d: Decision, r: Slot, i: int)
    requires OneShot(st)
    ensures var all := st.hits + NewHits(st, d, r, i);
            forall j, k :: 0 <= j < k < |all| ==> (all[j].side, all[j].hash) != (all[k].side, all[k].hash)
  {
    hide Structure, Crosses;
    var more := NewHits(st, d, r, i);
    assert forall k :: 0 <= k < |more| ==> (more[k].side, more[k].hash) !in st.used;
    assert forall j :: 0 <= j < |st.hits| ==> (st.hits[j].side, st.hits[j].hash) in Keys(st.hits);
  }

  lemma KeysAppend(a: seq<BreakHit>, b: seq<BreakHit>)
    ensures Keys(a + b) == Keys(a) + Keys(b)
  {
    forall x | x in Keys(a) + Keys(b) ensures x in Keys(a + b) {
      if x in Keys(a) {
        var h :| h in a && x == (h.side, h.hash);
        assert h in a + b;
      } else {
        var h :| h in b && x == (h.side, h.hash);
        assert h in a + b;
      }
    }
  }

  ghost predicate IsBreak(e: Event) {
    e.family == Bos3 || e.family == Choch3
  }

  ghost predicate Logged(e: Event, hits: seq<BreakHit>) {
    exists h :: h in hits && h.side == e.side && h.index == e.index
  }

  lemma {:induction false} EmittedBreaksLogged(k: nat, s: Seen, d: Decision, i: int, before: State, after: State)
    requires s.Seen? && |d.prior| == 20 && k <= |FAMILIES|
    requires AnchorsBefore(after.lo, i + 1) && AnchorsBefore(after.hi, i + 1)
    ensures var hits := NewHits(before, d, s.r, i);
            forall m :: 0 <= m < |EmitFrom(k, s, d, i, before, after)| ==>
              IsBreak(EmitFrom(k, s, d, i, before, after)[m]) ==> Logged(EmitFrom(k, s, d, i, before, after)[m], hits)
    decreases |FAMILIES| - k
  {
    hide Emit, BreakOf, Structure, OuterClose, RangeLow, RangeHigh;
    if k < |FAMILIES| {
      EmittedBreaksLogged(k + 1, s, d, i, before, after);
      var e := Emit(FAMILIES[k], s, d, i, before, after);
      if |e| == 1 && IsBreak(e[0]) {
        var b := BreakOf(before, d, s.r, e[0].side);
        assert b.Some?;
        var h := BreakHit(e[0].side, b.value, i);
        var l, r := HitsOn(before, d, s.r, Long, i), HitsOn(before, d, s.r, Short, i);
        match e[0].side {
          case Long => assert (l + r)[0] == h;
          case Short => assert r == [h] && (l + r)[|l|] == h;
        }
      }
    }
  }

  lemma LoggedAppend(e: Event, a: seq<BreakHit>, b: seq<BreakHit>)
    requires Logged(e, a) || Logged(e, b)
    ensures Logged(e, a + b)
  {
    var h :| (h in a || h in b) && h.side == e.side && h.index == e.index;
    assert h in a + b;
  }

  ghost predicate BreaksLogged(st: State) {
    forall m :: 0 <= m < |st.events| ==> IsBreak(st.events[m]) ==> Logged(st.events[m], st.hits)
  }

  /** Every BOS or CHOCH event carries one of those one-shot breaks. */
  lemma {:induction false} BreakEventsLogged(bars: seq<Slot>, first: int, n: nat)
    requires n <= |bars|
    ensures BreaksLogged(Run(bars, first, n))
  {
    hide *;
    if n == 0 {
      RunStart(bars, first);
    } else {
      RunStep(bars, first, n);
      BreakEventsLogged(bars, first, n - 1);
      StepBreaksLogged(See(bars, first, n - 1), n - 1, Run(bars, first, n - 1));
    }
  }

  lemma StepBreaksLogged(s: Seen, i: int, st: State)
    requires s.Seen? && s.decision.Some? ==> |s.decision.value.prior| == 20
    requires AnchorsBefore(st.lo, i) && AnchorsBefore(st.hi, i)
    requires BreaksLogged(st)
    ensures BreaksLogged(Step(s, i, st))
  {
    hide Step, Refresh, NewHits, Keys, EmitFrom, IsBreak, Logged;
    StepFields(s, i, st);
    if s.Seen? && s.decision.Some? {
      var a, b := st.hits, NewHits(st, s.decision.value, s.r, i);
      EmittedBreaksLogged(0, s, s.decision.value, i, st, Refresh(s, i, st));
      forall e | Logged(e, a) || Logged(e, b) ensures Logged(e, a + b) {
        LoggedAppend(e, a, b);
      }
    }
  }

  // ---------- one event per detector and bar ----------

  /** The place of a detector in the emission order. */
  function Place(family: Family): (k: nat)
    ensures k < |FAMILIES| && FAMILIES[k] == family
  {
    match family
    case Breakout20 => 0
    case WickReversal20 => 1
    case Ema20Reclaim => 2
    case Bos3 => 3
    case Choch3 => 4
  }

  ghost predicate InPlaceOrder(e: seq<Event>, k: nat) {
    && (forall m :: 0 <= m < |e| ==> k <= Place(e[m].family))
    && (forall l, m :: 0 <= l < m < |e| ==> Place(e[l].family) < Place(e[m].family))
  }

  lemma {:induction false} EmittedInPlaceOrder(k: nat, s: Seen, d: Decision, i: int, before: State, after: State)
    requires s.Seen? && |d.prior| == 20 && k <= |FAMILIES|
    requires AnchorsBefore(after.lo, i + 1) && AnchorsBefore(after.hi, i + 1)
    ensures InPlaceOrder(EmitFrom(k, s, d, i, before, after), k)
    decreases |FAMILIES| - k
  {
    hide Emit, InPlaceOrder;
    if k < |FAMILIES| {
      EmittedInPlaceOrder(k + 1, s, d, i, before, after);
      PlaceOf(k);
      OrderedPrepend(k, Emit(FAMILIES[k], s, d, i, before, after), EmitFrom(k + 1, s, d, i, before, after));
    } else {
      NothingInOrder(k);
    }
  }

  lemma NothingInOrder(k: nat)
    ensures InPlaceOrder([], k)
  {
  }

  lemma PlaceOf(k: nat)
    requires k < |FAMILIES|
    ensures Place(FAMILIES[k]) == k
  {
  }

  lemma OrderedPrepend(k: nat, head: seq<Event>, tail: seq<Event>)
    requires |head| <= 1 && (|head| == 1 ==> Place(head[0].family) == k)
    requires InPlaceOrder(tail, k + 1)
    ensures InPlaceOrder(head + tail, k)
  {
    hide Place;
  }

  ghost predicate OrderedEvents(st: State) {
    forall l, m :: 0 <= l < m < |st.events| ==>
      && st.events[l].index <= st.events[m].index
      && (st.events[l].family == st.events[m].family ==> st.events[l].index < st.events[m].index)
      && (st.events[l].index == st.events[m].index ==> Place(st.events[l].family) < Place(st.events[m].family))
  }

  /** Events come in bar order and, within a bar, in detector order; so two events
      of one detector are at different bars. */
  lemma {:induction false} OneEventPerDetector(bars: seq<Slot>, first: int, n: nat)
    requires n <= |bars|
    ensures OrderedEvents(Run(bars, first, n))
  {
    hide *;
    if n == 0 {
      RunStart(bars, first);
    } else {
      RunStep(bars, first, n);
      OneEventPerDetector(bars, first, n - 1);
      EventsGrow(bars, first, n - 1, n - 1);
      StepOrdered(See(bars, first, n - 1), n - 1, Run(bars, first, n - 1));
    }
  }

  lemma StepOrdered(s: Seen, i: int, st: State)
    requires s.Seen? && s.decision.Some? ==> |s.decision.value.prior| == 20
    requires AnchorsBefore(st.lo, i) && AnchorsBefore(st.hi, i)
    requires OrderedEvents(st) && forall k :: 0 <= k < |st.events| ==> st.events[k].index < i
    ensures OrderedEvents(Step(s, i, st))
  {
    hide Step, Refresh, NewHits, Keys, EmitFrom;
    StepFields(s, i, st);
    if s.Seen? && s.decision.Some? {
      EmittedInPlaceOrder(0, s, s.decision.value, i, st, Refresh(s, i, st));
    }
  }

  // ---------- scores ----------

  /** Each score lies between 0 and 100, and the balanced score is 100 exactly
      when every group has an available feature and no available one is false. */
  lemma ScoreBounds(f: Features, regime: Regime)
    requires |f| == 5
    ensures var s := Score(f, regime);
            && 0.0 <= s.balanced60 <= 100.0
            && 0.0 <= s.regime60 <= 100.0
            && (forall k :: 0 <= k < 5 ==> 0.0 <= s.without[k] <= 100.0)
            && (s.balanced60 == 100.0 <==> forall k :: 0 <= k < 5 ==> Known(f[k]) > 0 && Hits(f[k]) == Known(f[k]))
            && (s.regime60 == 100.0 <==> s.balanced60 == 100.0)
  {
    hide Known, Hits;
    forall k | 0 <= k < 5
      ensures GroupScore(f[k]) == 1.0 <==> Known(f[k]) > 0 && Hits(f[k]) == Known(f[k])
    {
      FullMarks(f[k]);
    }
    hide GroupScore;
    var g := seq(5, k requires 0 <= k < 5 => GroupScore(f[k]));
    assert g[0] == GroupScore(f[0]) && g[1] == GroupScore(f[1]) && g[2] == GroupScore(f[2])
        && g[3] == GroupScore(f[3]) && g[4] == GroupScore(f[4]);
  }

  lemma FullMarks(members: seq<Option<bool>>)
    ensures GroupScore(members) == 1.0 <==> Known(members) > 0 && Hits(members) == Known(members)
  {
    hide Known, Hits;
    if Known(members) > 0 {
      Ratio(Hits(members) as real, Known(members) as real);
    }
  }

  lemma Ratio(h: real, n: real)
    requires n > 0.0
    ensures h / n == 1.0 <==> h == n
  {
    assert h == h / n * n;
  }
}
