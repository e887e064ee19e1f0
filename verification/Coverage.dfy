/** Market coverage: forward moves that beat an adverse half-move, and the one
    cause each is attributed to. */
module Coverage {
  import opened Common

  const BARS_PER_HOUR := 12

  datatype Event = Event(index: nat, ts: int, side: Side, moveBps: real, bars: nat)

  // ---------- first passage ----------

  /** Bar j reaches the move on a side, seen from the close of bar i. */
  predicate Hits(tape: seq<Bar>, i: nat, j: nat, side: Side, bps: real)
    requires i < |tape| && j < |tape| && tape[i].close != 0.0
  {
    var close := tape[i].close;
    if side == Long then (tape[j].high / close - 1.0) * 10000.0 >= bps
    else (1.0 - tape[j].low / close) * 10000.0 >= bps
  }

  /** Bar j touches the adverse half-move of a side. */
  predicate Adverse(tape: seq<Bar>, i: nat, j: nat, side: Side, bps: real)
    requires i < |tape| && j < |tape| && tape[i].close != 0.0
  {
    var close := tape[i].close;
    if side == Long then (tape[j].low / close - 1.0) * 10000.0 <= -bps / 2.0
    else (1.0 - tape[j].high / close) * 10000.0 <= -bps / 2.0
  }

  ghost predicate Alive(tape: seq<Bar>, i: nat, j: nat, side: Side, bps: real)
    requires i < |tape| && tape[i].close != 0.0 && j < |tape|
  {
    forall k :: i < k <= j ==> !Adverse(tape, i, k, side, bps)
  }

  /** From bar i the move on a side is complete at bar j: reached there with no
      bar up to and including it touching the adverse half-move. */
  ghost predicate Completes(tape: seq<Bar>, i: nat, j: nat, side: Side, bps: real)
    requires i < |tape| && tape[i].close != 0.0
  {
    i < j < |tape| && Hits(tape, i, j, side, bps) && Alive(tape, i, j, side, bps)
  }

  /** The end, exclusive, of what the scan from bar i may look at. */
  function Reach(tape: seq<Bar>, i: nat, horizon: int): (m: int)
    ensures m <= |tape|
  {
    if i + horizon + 1 < |tape| then i + horizon + 1 else |tape|
  }

  /** j is the first bar at which either side completes; a bar that completes
      both counts as long. */
  ghost predicate FirstPassage(tape: seq<Bar>, i: nat, j: nat, side: Side, bps: real, horizon: int)
    requires i < |tape| && tape[i].close != 0.0
  {
    && j < Reach(tape, i, horizon)
    && Completes(tape, i, j, side, bps)
    && (side == Short ==> !Completes(tape, i, j, Long, bps))
    && forall k, s :: i < k < j ==> !Completes(tape, i, k, s, bps)
  }

  ghost predicate Qualifies(tape: seq<Bar>, i: nat, bps: real, horizon: int)
    requires i < |tape| && tape[i].close != 0.0
  {
    exists j: nat, s :: j < Reach(tape, i, horizon) && Completes(tape, i, j, s, bps)
  }

  /** The inner scan of the source. */
  method Passage(tape: seq<Bar>, i: nat, bps: real, horizon: int) returns (found: Option<(Side, nat)>)
    requires i < |tape| && Priced(tape)
    ensures found.Some? ==> FirstPassage(tape, i, found.value.1, found.value.0, bps, horizon)
    ensures found.None? ==> !Qualifies(tape, i, bps, horizon)
  {
    hide Hits, Adverse;
    var up, down := true, true;
    var j := i + 1;
    while j < Reach(tape, i, horizon) && (up || down)
      invariant i < j && (j <= Reach(tape, i, horizon) || j == i + 1)
      invariant up <==> forall k :: i < k < j && k < |tape| ==> !Adverse(tape, i, k, Long, bps)
      invariant down <==> forall k :: i < k < j && k < |tape| ==> !Adverse(tape, i, k, Short, bps)
      invariant forall k :: i < k < j ==> !Completes(tape, i, k, Long, bps) && !Completes(tape, i, k, Short, bps)
    {
      if up {
        if Adverse(tape, i, j, Long, bps) {
          up := false;
        } else if Hits(tape, i, j, Long, bps) {
          BothSides(tape, i, j, bps);
          return Some((Long, j));
        }
      }
      if down {
        if Adverse(tape, i, j, Short, bps) {
          down := false;
        } else if Hits(tape, i, j, Short, bps) {
          BothSides(tape, i, j, bps);
          return Some((Short, j));
        }
      }
      j := j + 1;
    }
    forall k: nat, s | k < Reach(tape, i, horizon) ensures !Completes(tape, i, k, s, bps) {
      if k < j {
        BothSides(tape, i, j, bps);
      } else {
        assert s == Long || s == Short;
      }
    }
    return None;
  }

  lemma BothSides(tape: seq<Bar>, i: nat, j: nat, bps: real)
    requires i < |tape| && tape[i].close != 0.0
    requires forall k :: i < k < j ==> !Completes(tape, i, k, Long, bps) && !Completes(tape, i, k, Short, bps)
    ensures forall k, s :: i < k < j ==> !Completes(tape, i, k, s, bps)
  {
    hide Completes;
    forall k, s | i < k < j ensures !Completes(tape, i, k, s, bps) {
      match s {
        case Long =>
        case Short =>
      }
    }
  }

  /** With a positive move no bar qualifies both ways: reaching one side's move is
      itself adverse to the other. */
  lemma OneWay(tape: seq<Bar>, i: nat, j: nat, k: nat, bps: real)
    requires i < |tape| && ValidTape(tape) && bps > 0.0
    requires Completes(tape, i, j, Long, bps)
    ensures !Completes(tape, i, k, Short, bps)
  {
    if i < k < |tape| && Hits(tape, i, k, Short, bps) {
      if j <= k {
        assert Adverse(tape, i, j, Short, bps);
      } else {
        assert Adverse(tape, i, k, Long, bps);
      }
    }
  }

  // ---------- in prices ----------

  /** The bar's favourable extreme has moved the given share of the price. */
  ghost predicate Moved(side: Side, close: real, b: Bar, bps: real) {
    if side == Long then (b.high - close) * 10000.0 >= bps * close else (close - b.low) * 10000.0 >= bps * close
  }

  /** The bar's adverse extreme has moved half of it. */
  ghost predicate Failed(side: Side, close: real, b: Bar, bps: real) {
    if side == Long then (close - b.low) * 20000.0 >= bps * close else (b.high - close) * 20000.0 >= bps * close
  }

  lemma MoveRatio(price: real, close: real, bps: real)
    requires close > 0.0
    ensures (price / close - 1.0) * 10000.0 >= bps <==> (price - close) * 10000.0 >= bps * close
    ensures (price / close - 1.0) * 10000.0 <= bps <==> (price - close) * 10000.0 <= bps * close
  {
    var q := price / close;
    assert q * close == price;
    var x := (q - 1.0) * 10000.0;
    assert x * close == (price - close) * 10000.0;
    Scales(x, bps, close);
    Scales(bps, x, close);
  }

  lemma Scales(x: real, y: real, k: real)
    requires k > 0.0
    ensures x * k >= y * k <==> x >= y
  {
  }

  /** A move from bar i completes at bar j exactly when bar j's favourable extreme is the
      move away and no bar up to it has gone half of it the other way. */
  lemma CompletesInPrices(tape: seq<Bar>, i: nat, j: nat, side: Side, bps: real)
    requires i < |tape| && tape[i].close > 0.0
    ensures Completes(tape, i, j, side, bps)
            <==> && i < j < |tape| && Moved(side, tape[i].close, tape[j], bps)
                 && forall k :: i < k <= j ==> !Failed(side, tape[i].close, tape[k], bps)
  {
    var close := tape[i].close;
    forall k | i < k < |tape|
      ensures Hits(tape, i, k, side, bps) <==> Moved(side, close, tape[k], bps)
      ensures Adverse(tape, i, k, side, bps) <==> Failed(side, close, tape[k], bps)
    {
      BarInPrices(tape, i, k, side, bps);
    }
    hide Hits, Adverse, Moved, Failed;
  }

  /** The scan from bar i looks at the bars after it, at most a horizon away. */
  lemma ReachExactly(tape: seq<Bar>, i: nat, j: nat, horizon: int)
    requires i < |tape|
    ensures j < Reach(tape, i, horizon) <==> j < |tape| && j - i <= horizon
  {
  }

  lemma BarInPrices(tape: seq<Bar>, i: nat, k: nat, side: Side, bps: real)
    requires i < |tape| && k < |tape| && tape[i].close > 0.0
    ensures Hits(tape, i, k, side, bps) <==> Moved(side, tape[i].close, tape[k], bps)
    ensures Adverse(tape, i, k, side, bps) <==> Failed(side, tape[i].close, tape[k], bps)
  {
    var close := tape[i].close;
    MoveRatio(tape[k].high, close, bps);
    MoveRatio(tape[k].low, close, -bps);
    MoveRatio(tape[k].low, close, -bps / 2.0);
    MoveRatio(tape[k].high, close, bps / 2.0);
  }

  // ---------- the scan ----------

  function Last(e: Event): nat {
    e.index + e.bars
  }

  ghost predicate Covers(e: Event, i: nat) {
    e.index < i <= Last(e)
  }

  ghost predicate Sound(tape: seq<Bar>, e: Event, bps: real, horizon: int)
    requires Priced(tape)
  {
    && e.index < |tape| - 1
    && e.ts == tape[e.index].ts && e.moveBps == bps
    && FirstPassage(tape, e.index, Last(e), e.side, bps, horizon)
  }

  /** Events of the scan so far: each a first passage from a bar outside the
      earlier spans. */
  ghost predicate Genuine(tape: seq<Bar>, events: seq<Event>, start: nat, bps: real, horizon: int)
    requires Priced(tape)
  {
    && (forall k :: 0 <= k < |events| ==> start <= events[k].index && Sound(tape, events[k], bps, horizon))
    && forall j, k :: 0 <= j < k < |events| ==> Last(events[j]) < events[k].index
  }

  /** Bar m starts an event or lies inside the span of one. */
  ghost predicate Accounted(events: seq<Event>, m: nat) {
    exists k :: 0 <= k < |events| && (events[k].index == m || Covers(events[k], m))
  }

  ghost predicate Complete(tape: seq<Bar>, events: seq<Event>, start: nat, n: nat, bps: real, horizon: int)
    requires Priced(tape)
  {
    forall m: nat :: start <= m < n && m < |tape| && Qualifies(tape, m, bps, horizon) ==> Accounted(events, m)
  }

  lemma AccountedGrows(tape: seq<Bar>, events: seq<Event>, e: Event, start: nat, n: nat, bps: real, horizon: int)
    requires Priced(tape) && Complete(tape, events, start, n, bps, horizon) && e.index == n
    ensures Complete(tape, events + [e], start, n + 1, bps, horizon)
  {
    hide Qualifies;
    var more := events + [e];
    forall m: nat | start <= m < n + 1 && m < |tape| && Qualifies(tape, m, bps, horizon)
      ensures Accounted(more, m)
    {
      if m == n {
        assert more[|events|].index == m;
      } else {
        var k :| 0 <= k < |events| && (events[k].index == m || Covers(events[k], m));
        assert more[k] == events[k];
      }
    }
  }

  lemma GenuineGrows(tape: seq<Bar>, events: seq<Event>, e: Event, start: nat, bps: real, horizon: int)
    requires Priced(tape) && Genuine(tape, events, start, bps, horizon)
    requires start <= e.index && Sound(tape, e, bps, horizon)
    requires forall k :: 0 <= k < |events| ==> Last(events[k]) < e.index
    ensures Genuine(tape, events + [e], start, bps, horizon)
  {
    hide Sound;
  }

  /** Emits at exactly those bars outside earlier event spans from which a move
      completes; spans are disjoint and in order. */
  method FindEvents(tape: seq<Bar>, start: nat, bps: real, hours: int) returns (events: seq<Event>)
    requires Priced(tape)
    ensures Genuine(tape, events, start, bps, hours * BARS_PER_HOUR)
    ensures forall m: nat :: start <= m < |tape| - 1 && Qualifies(tape, m, bps, hours * BARS_PER_HOUR) ==>
              Accounted(events, m)
  {
    hide FirstPassage, Qualifies, Genuine, Complete, Accounted;
    var horizon := hours * BARS_PER_HOUR;
    events := [];
    var busyUntil := -1;
    var i := start;
    assert Genuine(tape, [], start, bps, horizon) && Complete(tape, [], start, start, bps, horizon) by {
      NoEvents(tape, start, bps, horizon);
    }
    while i < |tape| - 1
      invariant start <= i
      invariant Genuine(tape, events, start, bps, horizon)
      invariant Complete(tape, events, start, i, bps, horizon)
      invariant forall k :: 0 <= k < |events| ==> events[k].index < i && Last(events[k]) <= busyUntil
      invariant busyUntil == -1 || (events != [] && busyUntil == Last(events[|events| - 1]))
      decreases |tape| - i
    {
      if i <= busyUntil {
        InsideSpan(tape, events, start, i, bps, horizon);
        i := i + 1;
        continue;
      }
      var found := Passage(tape, i, bps, horizon);
      if found.Some? {
        PassageAfter(tape, i, found.value.1, found.value.0, bps, horizon);
        var event := Event(i, tape[i].ts, found.value.0, bps, found.value.1 - i);
        AccountedGrows(tape, events, event, start, i, bps, horizon);
        GenuineGrows(tape, events, event, start, bps, horizon);
        events := events + [event];
        busyUntil := found.value.1;
      } else {
        NothingThere(tape, events, start, i, bps, horizon);
      }
      i := i + 1;
    }
    EveryBar(tape, events, start, i, bps, horizon);
  }

  lemma NoEvents(tape: seq<Bar>, start: nat, bps: real, horizon: int)
    requires Priced(tape)
    ensures Genuine(tape, [], start, bps, horizon) && Complete(tape, [], start, start, bps, horizon)
  {
  }

  lemma InsideSpan(tape: seq<Bar>, events: seq<Event>, start: nat, i: nat, bps: real, horizon: int)
    requires Priced(tape) && Complete(tape, events, start, i, bps, horizon)
    requires events != [] && events[|events| - 1].index < i <= Last(events[|events| - 1])
    ensures Complete(tape, events, start, i + 1, bps, horizon)
  {
    hide Qualifies;
    assert Covers(events[|events| - 1], i);
    assert Accounted(events, i);
  }

  lemma NothingThere(tape: seq<Bar>, events: seq<Event>, start: nat, i: nat, bps: real, horizon: int)
    requires Priced(tape) && Complete(tape, events, start, i, bps, horizon)
    requires i < |tape| && !Qualifies(tape, i, bps, horizon)
    ensures Complete(tape, events, start, i + 1, bps, horizon)
  {
    hide Qualifies, Accounted;
  }

  lemma EveryBar(tape: seq<Bar>, events: seq<Event>, start: nat, n: nat, bps: real, horizon: int)
    requires Priced(tape) && Complete(tape, events, start, n, bps, horizon) && n >= |tape| - 1
    ensures forall m: nat :: start <= m < |tape| - 1 && Qualifies(tape, m, bps, horizon) ==> Accounted(events, m)
  {
    hide Qualifies, Accounted;
  }

  lemma PassageAfter(tape: seq<Bar>, i: nat, j: nat, side: Side, bps: real, horizon: int)
    requires i < |tape| && tape[i].close != 0.0 && FirstPassage(tape, i, j, side, bps, horizon)
    ensures i < j < |tape|
  {
  }

  // ---------- attribution ----------

  datatype Cause = Caught | Early | Gated | Blind

  /** A position's entry and exit bars. */
  datatype Held = Held(entry: int, exit: int)

  datatype Report = Report(counts: map<Cause, nat>, missed: map<Cause, real>, total: nat)

  predicate OpenAt(h: Held, b: int) {
    h.entry <= b <= h.exit
  }

  predicate Overlaps(e: Event, h: Held) {
    exists b :: e.index <= b <= Last(e) && OpenAt(h, b)
  }

  predicate Spans(e: Event, h: Held) {
    h.entry <= e.index && h.exit >= Last(e)
  }

  predicate NearArm(e: Event, armed: set<int>, tolerance: int) {
    exists b :: e.index - tolerance <= b <= e.index + tolerance && b in armed
  }

  function CauseOf(e: Event, armed: set<int>, held: seq<Held>, tolerance: int): Cause {
    if exists k :: 0 <= k < |held| && Overlaps(e, held[k]) then
      if exists k :: 0 <= k < |held| && Spans(e, held[k]) then Caught else Early
    else if NearArm(e, armed, tolerance) then Gated
    else Blind
  }

  /** A position that spans an event also overlaps it, so an event is caught
      exactly when one position was open throughout; it is early when some
      position overlapped it but none was open throughout. */
  lemma CauseExactly(e: Event, armed: set<int>, held: seq<Held>, tolerance: int)
    ensures CauseOf(e, armed, held, tolerance) == Caught <==> exists k :: 0 <= k < |held| && Spans(e, held[k])
    ensures CauseOf(e, armed, held, tolerance) == Early <==>
              && (exists k :: 0 <= k < |held| && Overlaps(e, held[k]))
              && (forall k :: 0 <= k < |held| && Overlaps(e, held[k]) ==>
                  held[k].entry > e.index || held[k].exit < Last(e))
  {
    forall k | 0 <= k < |held| && Spans(e, held[k]) ensures Overlaps(e, held[k]) {
      assert OpenAt(held[k], e.index);
    }
  }

  /** Gated and blind are told apart by an arm within the tolerance of the event's bar. */
  lemma UncaughtExactly(e: Event, armed: set<int>, held: seq<Held>, tolerance: int)
    ensures var cause := CauseOf(e, armed, held, tolerance);
            var met := exists k, b :: 0 <= k < |held| && e.index <= b <= e.index + e.bars && OpenAt(held[k], b);
            var near := exists b :: b in armed && Distance(b, e.index) <= tolerance;
            (cause == Gated <==> !met && near) && (cause == Blind <==> !met && !near)
  {
    hide Spans;
    forall k | 0 <= k < |held|
      ensures Overlaps(e, held[k]) <==> exists b :: e.index <= b <= e.index + e.bars && OpenAt(held[k], b)
    {
    }
    assert NearArm(e, armed, tolerance) <==> exists b :: b in armed && Distance(b, e.index) <= tolerance;
    hide Overlaps, OpenAt, NearArm;
  }

  function Distance(a: int, b: int): int {
    if a >= b then a - b else b - a
  }

  /** What EARLY is described as: some position that was in the event left before the
      move completed. */
  ghost predicate LeftEarly(e: Event, held: seq<Held>) {
    exists k :: 0 <= k < |held| && Overlaps(e, held[k]) && held[k].exit < Last(e)
  }

  /** Positions were in the event, but each of them entered late and stayed to the end. */
  ghost predicate OnlyLate(e: Event, held: seq<Held>) {
    && (exists k :: 0 <= k < |held| && Overlaps(e, held[k]))
    && (forall k :: 0 <= k < |held| && Overlaps(e, held[k]) ==> held[k].entry > e.index && held[k].exit >= Last(e))
  }

  /** The EARLY label means what it is described as exactly when not all the positions
      in the event were late entries held to the end; those are labelled EARLY too. */
  lemma EarlyLabelRightExactly(e: Event, armed: set<int>, held: seq<Held>, tolerance: int)
    ensures (CauseOf(e, armed, held, tolerance) == Early ==> LeftEarly(e, held)) <==> !OnlyLate(e, held)
  {
    hide CauseOf, Overlaps, Spans;
    CauseExactly(e, armed, held, tolerance);
  }

  /** Over a whole report: every EARLY event was left early exactly when no event has
      only late entries. */
  lemma EarlyLabelsRightExactly(events: seq<Event>, armed: set<int>, held: seq<Held>, tolerance: int)
    ensures (forall e :: e in events && CauseOf(e, armed, held, tolerance) == Early ==> LeftEarly(e, held))
            <==> (forall e :: e in events ==> !OnlyLate(e, held))
  {
    hide CauseOf, LeftEarly, OnlyLate;
    forall e ensures (CauseOf(e, armed, held, tolerance) == Early ==> LeftEarly(e, held)) <==> !OnlyLate(e, held) {
      EarlyLabelRightExactly(e, armed, held, tolerance);
    }
  }

  /** Such events exist: a position taken one bar after the event bar and held past the
      end is labelled EARLY although it never left early. */
  lemma LateEntryIsEarly(e: Event, armed: set<int>, tolerance: int, exit: int)
    requires e.bars >= 1 && exit >= Last(e)
    ensures var held := [Held(e.index + 1, exit)];
            CauseOf(e, armed, held, tolerance) == Early && OnlyLate(e, held) && !LeftEarly(e, held)
  {
    var held := [Held(e.index + 1, exit)];
    assert OpenAt(held[0], e.index + 1);
    assert Overlaps(e, held[0]);
  }

  function CountOf(events: seq<Event>, armed: set<int>, held: seq<Held>, tolerance: int, cause: Cause): nat {
    if events == [] then 0
    else
      CountOf(events[..|events| - 1], armed, held, tolerance, cause)
      + (if CauseOf(events[|events| - 1], armed, held, tolerance) == cause then 1 else 0)
  }

  function MissedBps(events: seq<Event>, armed: set<int>, held: seq<Held>, tolerance: int, cause: Cause): real {
    if events == [] then 0.0
    else
      MissedBps(events[..|events| - 1], armed, held, tolerance, cause)
      + (if CauseOf(events[|events| - 1], armed, held, tolerance) == cause then events[|events| - 1].moveBps else 0.0)
  }

  lemma FourCauses(c: Cause)
    ensures c in {Caught, Early, Gated, Blind}
  {
    match c {
      case Caught =>
      case Early =>
      case Gated =>
      case Blind =>
    }
  }

  ghost predicate Tallied(counts: map<Cause, nat>, missed: map<Cause, real>, events: seq<Event>, armed: set<int>,
                          held: seq<Held>, tolerance: int)
  {
    && counts.Keys == {Caught, Early, Gated, Blind} && missed.Keys == {Early, Gated, Blind}
    && (forall c :: c in counts ==> counts[c] == CountOf(events, armed, held, tolerance, c))
    && (forall c :: c in missed ==> missed[c] == MissedBps(events, armed, held, tolerance, c))
  }

  lemma TallyKeys(counts: map<Cause, nat>, missed: map<Cause, real>, events: seq<Event>, armed: set<int>,
                  held: seq<Held>, tolerance: int, key: Cause)
    requires Tallied(counts, missed, events, armed, held, tolerance)
    ensures key in counts && (key != Caught ==> key in missed)
  {
    FourCauses(key);
  }

  lemma TallyStep(counts: map<Cause, nat>, missed: map<Cause, real>, events: seq<Event>, i: nat, armed: set<int>,
                  held: seq<Held>, tolerance: int)
    requires i < |events| && Tallied(counts, missed, events[..i], armed, held, tolerance)
    ensures var key := CauseOf(events[i], armed, held, tolerance);
            && key in counts && (key != Caught ==> key in missed)
            && Tallied(counts[key := counts[key] + 1],
                       if key == Caught then missed else missed[key := missed[key] + events[i].moveBps],
                       events[..i + 1], armed, held, tolerance)
  {
    hide CauseOf;
    TallyKeys(counts, missed, events[..i], armed, held, tolerance, CauseOf(events[i], armed, held, tolerance));
    assert events[..i + 1][..i] == events[..i];
  }

  method Attribute(events: seq<Event>, armed: set<int>, held: seq<Held>, tolerance: int) returns (r: Report)
    ensures r.total == |events|
    ensures r.counts.Keys == {Caught, Early, Gated, Blind} && r.missed.Keys == {Early, Gated, Blind}
    ensures forall c :: c in r.counts ==> r.counts[c] == CountOf(events, armed, held, tolerance, c)
    ensures forall c :: c in r.missed ==> r.missed[c] == MissedBps(events, armed, held, tolerance, c)
  {
    hide CauseOf, CountOf, MissedBps;
    var counts: map<Cause, nat> := map[Caught := 0, Early := 0, Gated := 0, Blind := 0];
    var missed: map<Cause, real> := map[Early := 0.0, Gated := 0.0, Blind := 0.0];
    NothingTallied(armed, held, tolerance);
    for i := 0 to |events|
      invariant Tallied(counts, missed, events[..i], armed, held, tolerance)
    {
      TallyStep(counts, missed, events, i, armed, held, tolerance);
      var key := CauseOf(events[i], armed, held, tolerance);
      counts := counts[key := counts[key] + 1];
      if key != Caught {
        missed := missed[key := missed[key] + events[i].moveBps];
      }
    }
    assert events[..|events|] == events;
    r := Report(counts, missed, |events|);
  }

  lemma NothingTallied(armed: set<int>, held: seq<Held>, tolerance: int)
    ensures forall c :: CountOf([], armed, held, tolerance, c) == 0 && MissedBps([], armed, held, tolerance, c) == 0.0
  {
  }

  /** The bps of the events no position was open throughout. */
  function UncaughtBps(events: seq<Event>, held: seq<Held>): real {
    if events == [] then 0.0
    else
      var e := events[|events| - 1];
      UncaughtBps(events[..|events| - 1], held)
      + (if exists k :: 0 <= k < |held| && Spans(e, held[k]) then 0.0 else e.moveBps)
  }

  /** Each event has exactly one cause: the four counts add up to the total, and
      the missed bps to those of the events that were not caught. */
  lemma {:induction false} Partition(events: seq<Event>, armed: set<int>, held: seq<Held>, tolerance: int)
    ensures CountOf(events, armed, held, tolerance, Caught) + CountOf(events, armed, held, tolerance, Early)
          + CountOf(events, armed, held, tolerance, Gated) + CountOf(events, armed, held, tolerance, Blind) == |events|
    ensures MissedBps(events, armed, held, tolerance, Early) + MissedBps(events, armed, held, tolerance, Gated)
          + MissedBps(events, armed, held, tolerance, Blind) == UncaughtBps(events, held)
  {
    if events != [] {
      var e := events[|events| - 1];
      Partition(events[..|events| - 1], armed, held, tolerance);
      CauseExactly(e, armed, held, tolerance);
      hide CauseOf, Spans;
    }
  }
}
