/** The volume-burst screen: which five-minute bars are setups, and the
    non-overlapping reservation of the setups that are measured. Times are whole
    minutes. */
module BurstResponse {
  import opened Common

  /** One row of the minute calendar; a missing minute is an ineligible row. */
  datatype Minute = Minute(eligible: bool, open: real, high: real, low: real, close: real, quoteVolume: real)

  datatype Five = Five(eligible: bool, open: real, high: real, low: real, close: real, quoteVolume: real)

  // ---------- setups ----------

  function Children(minutes: seq<Minute>, k: nat): seq<Minute>
    requires 5 * (k + 1) <= |minutes|
  {
    minutes[5 * k..5 * (k + 1)]
  }

  function Parent(c: seq<Minute>): Five
    requires |c| == 5
  {
    Five(forall j :: 0 <= j < 5 ==> c[j].eligible,
         c[0].open,
         MaxOf([c[0].high, c[1].high, c[2].high, c[3].high, c[4].high]),
         MinOf([c[0].low, c[1].low, c[2].low, c[3].low, c[4].low]),
         c[4].close,
         c[0].quoteVolume + c[1].quoteVolume + c[2].quoteVolume + c[3].quoteVolume + c[4].quoteVolume)
  }

  /** The complete five-minute parents of a minute calendar that starts on one. */
  function Parents(minutes: seq<Minute>): (bars: seq<Five>)
    ensures |bars| == |minutes| / 5
    ensures forall k :: 0 <= k < |bars| ==> bars[k] == Parent(Children(minutes, k))
  {
    seq(|minutes| / 5, (k: nat) requires k < |minutes| / 5 => Parent(Children(minutes, k)))
  }

  function Volumes(bars: seq<Five>): (s: seq<real>)
    ensures |s| == |bars| && forall k :: 0 <= k < |s| ==> s[k] == bars[k].quoteVolume
  {
    seq(|bars|, k requires 0 <= k < |bars| => bars[k].quoteVolume)
  }

  /** Eligible minutes have positive prices, so the quotient is read only where
      it is defined. */
  function BodyBps(b: Five): real {
    if b.open == 0.0 then 0.0 else (b.close / b.open - 1.0) * 10000.0
  }

  predicate NearExtreme(b: Five) {
    var width := b.high - b.low;
    || (BodyBps(b) > 0.0 && b.high - b.close <= 0.2 * width)
    || (BodyBps(b) < 0.0 && b.close - b.low <= 0.2 * width)
  }

  predicate Setup(bars: seq<Five>, k: nat)
    requires k < |bars|
  {
    && k >= 12
    && bars[k].eligible
    && (forall j :: k - 12 <= j < k ==> bars[j].eligible)
    && var baseline := Median(Volumes(bars[k - 12..k]));
    && baseline > 0.0
    && bars[k].high - bars[k].low > 0.0
    && bars[k].quoteVolume / baseline >= 2.0
    && Abs(BodyBps(bars[k])) >= 10.0
    && NearExtreme(bars[k])
  }

  /** A setup rests on sixty-five consecutive eligible minutes. */
  lemma SetupNeedsCompleteMinutes(minutes: seq<Minute>, k: nat)
    requires 5 * (k + 1) <= |minutes| && Setup(Parents(minutes), k)
    ensures k >= 12
    ensures forall m :: 5 * (k - 12) <= m < 5 * (k + 1) ==> minutes[m].eligible
  {
    hide Median, BodyBps, NearExtreme, MaxOf, MinOf;
    var bars := Parents(minutes);
    forall m | 5 * (k - 12) <= m < 5 * (k + 1) ensures minutes[m].eligible {
      var j := m / 5;
      assert k - 12 <= j <= k && bars[j].eligible;
      assert Children(minutes, j)[m - 5 * j] == minutes[m];
    }
  }

  /** Whether a bar is a setup is settled by the minutes up to its close. */
  lemma SetupCausal(a: seq<Minute>, b: seq<Minute>, k: nat)
    requires 5 * (k + 1) <= |a| && 5 * (k + 1) <= |b|
    requires a[..5 * (k + 1)] == b[..5 * (k + 1)]
    ensures Setup(Parents(a), k) <==> Setup(Parents(b), k)
  {
    hide Median, BodyBps, NearExtreme, Parent;
    var p, q := Parents(a), Parents(b);
    forall j: nat | j <= k ensures p[j] == q[j] {
      assert Children(a, j) == a[..5 * (k + 1)][5 * j..5 * (j + 1)];
      assert Children(b, j) == b[..5 * (k + 1)][5 * j..5 * (j + 1)];
    }
    if k >= 12 {
      assert p[k - 12..k] == q[k - 12..k];
    }
  }

  // ---------- the reservation ----------

  const PARENT := 5
  const DELAY := 1
  const HOLD := 15

  /** Each recorded setup occupies the time from its close to its exit. */
  const RESERVED := DELAY + HOLD

  datatype Claim = Continuation | Reversal

  /** A setup bar: its open time and its body. */
  datatype Burst = Burst(time: int, bodyBps: real)

  datatype Status = Censored | Measured(entry: real, exit: real, grossBps: real)

  datatype Record = Record(decisionClose: int, entryTime: int, exitTime: int, side: int, status: Status)

  datatype Counts = Counts(setups: nat, skipped: nat, censored: nat, measured: nat)

  function Close(b: Burst): int {
    b.time + PARENT
  }

  ghost predicate Increasing(setups: seq<Burst>) {
    forall j, k :: 0 <= j < k < |setups| ==> setups[j].time < setups[k].time
  }

  /** The setups among the first n five-minute bars, the first of which opens at start. */
  function Bursts(bars: seq<Five>, start: int, n: nat): seq<Burst>
    requires n <= |bars|
  {
    if n == 0 then []
    else
      Bursts(bars, start, n - 1)
      + (if Setup(bars, n - 1) then [Burst(start + PARENT * (n - 1), BodyBps(bars[n - 1]))] else [])
  }

  /** Setups come in time order and none closes before the calendar starts. */
  lemma {:induction false} BurstsInOrder(bars: seq<Five>, start: int, n: nat)
    requires n <= |bars|
    ensures Increasing(Bursts(bars, start, n))
    ensures forall b :: b in Bursts(bars, start, n) ==> start <= b.time < start + PARENT * n
  {
    hide Setup;
    if n > 0 {
      BurstsInOrder(bars, start, n - 1);
      var before := Bursts(bars, start, n - 1);
      assert forall k :: 0 <= k < |before| ==> before[k] in before;
    }
  }

  /** Every minute from the decision close to the exit, both included. */
  predicate PathEligible(minutes: map<int, Minute>, decision: int) {
    forall t :: decision <= t <= decision + RESERVED ==> t in minutes && minutes[t].eligible
  }

  function SideOf(b: Burst, claim: Claim): int {
    (if b.bodyBps > 0.0 then 1 else -1) * (if claim == Continuation then 1 else -1)
  }

  function Measure(minutes: map<int, Minute>, b: Burst, claim: Claim): Status
    requires forall t :: t in minutes && minutes[t].eligible ==> minutes[t].open > 0.0
  {
    if !PathEligible(minutes, Close(b)) then Censored
    else
      var entry, exit := minutes[Close(b) + DELAY].open, minutes[Close(b) + RESERVED].open;
      Measured(entry, exit, SideOf(b, claim) as real * (exit / entry - 1.0) * 10000.0)
  }

  function RecordOf(minutes: map<int, Minute>, b: Burst, claim: Claim): Record
    requires forall t :: t in minutes && minutes[t].eligible ==> minutes[t].open > 0.0
  {
    Record(Close(b), Close(b) + DELAY, Close(b) + RESERVED, SideOf(b, claim), Measure(minutes, b, claim))
  }

  /** The positions, from i on, of the setups recorded by a symbol that is
      occupied up to the given time. */
  function Chosen(setups: seq<Burst>, i: nat, busy: int): (chosen: seq<nat>)
    requires i <= |setups|
    ensures forall k :: 0 <= k < |chosen| ==> i <= chosen[k] < |setups|
    decreases |setups| - i
  {
    if i == |setups| then []
    else if Close(setups[i]) < busy then Chosen(setups, i + 1, busy)
    else [i] + Chosen(setups, i + 1, Close(setups[i]) + RESERVED)
  }

  function CountMeasured(records: seq<Record>): (n: nat)
    ensures n <= |records|
  {
    if records == [] then 0
    else CountMeasured(records[..|records| - 1]) + if records[|records| - 1].status.Measured? then 1 else 0
  }

  /** The loop of the source; start is the first bar's open time. Which setups are
      recorded depends on neither the minute data nor the claim. */
  method Events(minutes: map<int, Minute>, setups: seq<Burst>, start: int, claim: Claim)
    returns (records: seq<Record>, counts: Counts, ghost chosen: seq<nat>)
    requires forall t :: t in minutes && minutes[t].eligible ==> minutes[t].open > 0.0
    ensures chosen == Chosen(setups, 0, start)
    ensures |records| == |chosen|
    ensures forall k :: 0 <= k < |records| ==> records[k] == RecordOf(minutes, setups[chosen[k]], claim)
    ensures counts.setups == |setups| == counts.skipped + counts.censored + counts.measured
    ensures counts.measured == CountMeasured(records) && counts.censored + counts.measured == |records|
  {
    hide Measure, SideOf;
    records, chosen := [], [];
    var occupiedUntil, skipped, censored, measured := start, 0, 0, 0;
    for i := 0 to |setups|
      invariant chosen + Chosen(setups, i, occupiedUntil) == Chosen(setups, 0, start)
      invariant forall k :: 0 <= k < |chosen| ==> chosen[k] < i
      invariant |records| == |chosen|
      invariant forall k :: 0 <= k < |records| ==> records[k] == RecordOf(minutes, setups[chosen[k]], claim)
      invariant i == skipped + censored + measured && censored + measured == |records|
      invariant measured == CountMeasured(records)
    {
      var decisionClose := Close(setups[i]);
      if decisionClose < occupiedUntil {
        skipped := skipped + 1;
        continue;
      }
      assert Chosen(setups, i, occupiedUntil) == [i] + Chosen(setups, i + 1, decisionClose + RESERVED);
      occupiedUntil := decisionClose + RESERVED;
      var record := RecordOf(minutes, setups[i], claim);
      if record.status.Measured? {
        measured := measured + 1;
      } else {
        censored := censored + 1;
      }
      assert (records + [record])[..|records|] == records;
      records, chosen := records + [record], chosen + [i];
    }
    counts := Counts(|setups|, skipped, censored, measured);
  }

  // ---------- the reservation is sound, complete and optimal ----------

  ghost predicate Shadowed(setups: seq<Burst>, m: nat, chosen: seq<nat>)
    requires m < |setups| && forall k :: 0 <= k < |chosen| ==> chosen[k] < |setups|
  {
    exists j :: 0 <= j < |chosen| && 0 < Close(setups[m]) - Close(setups[chosen[j]]) < RESERVED
  }

  ghost predicate Spaced(setups: seq<Burst>, c: seq<nat>, busy: int)
    requires forall k :: 0 <= k < |c| ==> c[k] < |setups|
  {
    && (forall k :: 0 <= k < |c| ==> busy <= Close(setups[c[k]]))
    && (forall j, k :: 0 <= j < k < |c| ==> c[j] < c[k] && Close(setups[c[j]]) + RESERVED <= Close(setups[c[k]]))
  }

  lemma {:induction false} ChosenSpaced(setups: seq<Burst>, i: nat, busy: int)
    requires i <= |setups|
    ensures Spaced(setups, Chosen(setups, i, busy), busy)
    decreases |setups| - i
  {
    if i < |setups| {
      if Close(setups[i]) < busy {
        ChosenSpaced(setups, i + 1, busy);
      } else {
        ChosenSpaced(setups, i + 1, Close(setups[i]) + RESERVED);
        SpacedPrepend(setups, i, Chosen(setups, i + 1, Close(setups[i]) + RESERVED), busy);
      }
    }
  }

  lemma SpacedPrepend(setups: seq<Burst>, i: nat, rest: seq<nat>, busy: int)
    requires i < |setups| && busy <= Close(setups[i])
    requires forall k :: 0 <= k < |rest| ==> i < rest[k] < |setups|
    requires Spaced(setups, rest, Close(setups[i]) + RESERVED)
    ensures Spaced(setups, [i] + rest, busy)
  {
  }

  lemma {:induction false} ChosenShadows(setups: seq<Burst>, i: nat, busy: int, m: nat)
    requires i <= m < |setups| && Increasing(setups) && m !in Chosen(setups, i, busy)
    ensures Close(setups[m]) < busy || Shadowed(setups, m, Chosen(setups, i, busy))
    decreases |setups| - i
  {
    hide Shadowed;
    if Close(setups[i]) < busy {
      if i < m {
        ChosenShadows(setups, i + 1, busy, m);
      }
    } else {
      var until := Close(setups[i]) + RESERVED;
      var rest, c := Chosen(setups, i + 1, until), Chosen(setups, i, busy);
      assert c[0] == i && i in c;
      assert forall k :: 0 <= k < |rest| ==> c[k + 1] == rest[k];
      ChosenShadows(setups, i + 1, until, m);
      ShadowPrepend(setups, m, i, rest);
    }
  }

  lemma ShadowPrepend(setups: seq<Burst>, m: nat, i: nat, rest: seq<nat>)
    requires i < m < |setups| && Increasing(setups) && forall k :: 0 <= k < |rest| ==> rest[k] < |setups|
    requires Close(setups[m]) < Close(setups[i]) + RESERVED || Shadowed(setups, m, rest)
    ensures Shadowed(setups, m, [i] + rest)
  {
    var c := [i] + rest;
    if Shadowed(setups, m, rest) {
      var j :| 0 <= j < |rest| && 0 < Close(setups[m]) - Close(setups[rest[j]]) < RESERVED;
      assert c[j + 1] == rest[j];
    } else {
      assert c[0] == i;
    }
  }

  /** Recorded decisions are in order and at least sixteen minutes apart, and
      each skipped one is less than sixteen minutes after a recorded one. */
  lemma ReservationExact(setups: seq<Burst>, start: int)
    requires Increasing(setups) && forall k :: 0 <= k < |setups| ==> start <= Close(setups[k])
    ensures var c := Chosen(setups, 0, start);
      && Spaced(setups, c, start)
      && (forall m :: 0 <= m < |setups| && m !in c ==> Shadowed(setups, m, c))
  {
    ChosenSpaced(setups, 0, start);
    var c := Chosen(setups, 0, start);
    forall m | 0 <= m < |setups| && m !in c ensures Shadowed(setups, m, c) {
      ChosenShadows(setups, 0, start, m);
    }
  }

  /** Setup positions from i on whose decisions are not before the given time and
      pairwise at least sixteen minutes apart. */
  ghost predicate Spread(setups: seq<Burst>, s: set<nat>, i: nat, busy: int) {
    && (forall k :: k in s ==> i <= k < |setups| && busy <= Close(setups[k]))
    && (forall j, k :: j in s && k in s && j < k ==> Close(setups[j]) + RESERVED <= Close(setups[k]))
  }

  lemma AtMostOne(s: set<nat>)
    requires forall j, k :: j in s && k in s ==> j == k
    ensures |s| <= 1
  {
    if s != {} {
      var x :| x in s;
      assert s == {x};
    }
  }

  /** Recording the first free setup leaves at least as many to record. */
  lemma {:induction false} GreedyStaysAhead(setups: seq<Burst>, i: nat, busy: int, s: set<nat>)
    requires i <= |setups| && Increasing(setups) && Spread(setups, s, i, busy)
    ensures |s| <= |Chosen(setups, i, busy)|
    decreases |setups| - i
  {
    if i == |setups| {
      assert forall k :: k in s ==> false;
      assert s == {};
    } else if Close(setups[i]) < busy {
      GreedyStaysAhead(setups, i + 1, busy, s);
    } else {
      var until := Close(setups[i]) + RESERVED;
      var after := set k | k in s && until <= Close(setups[k]);
      GreedyStaysAhead(setups, i + 1, until, after);
      OneBefore(setups, i, busy, s, after, until);
    }
  }

  lemma OneBefore(setups: seq<Burst>, i: nat, busy: int, s: set<nat>, after: set<nat>, until: int)
    requires i < |setups| && Increasing(setups) && Spread(setups, s, i, busy)
    requires until == Close(setups[i]) + RESERVED
    requires after == set k | k in s && until <= Close(setups[k])
    ensures |s| <= 1 + |after|
  {
    var early := s - after;
    forall k | k in early ensures Close(setups[i]) <= Close(setups[k]) < until {
      assert k == i || setups[i].time < setups[k].time;
    }
    forall j, k | j in early && k in early ensures j == k {
    }
    AtMostOne(early);
    assert s == early + after;
  }

  /** No choice of setups at least sixteen minutes apart records more. */
  lemma ReservationOptimal(setups: seq<Burst>, start: int, s: set<nat>)
    requires Increasing(setups) && Spread(setups, s, 0, start)
    ensures |s| <= |Chosen(setups, 0, start)|
  {
    GreedyStaysAhead(setups, 0, start, s);
  }
}
