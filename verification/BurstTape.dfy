/** What the burst screen's setups and records mean in prices and minutes. */
module BurstTape {
  import opened Common
  import opened BurstResponse

  /** The five-minute bar of minutes 5k to 5k+4: open of the first, close of the last,
      their extremes and total volume; eligible when all five are. */
  ghost predicate Built(minutes: seq<Minute>, k: nat, b: Five)
    requires 5 * (k + 1) <= |minutes|
  {
    var m := 5 * k;
    && (b.eligible <==> forall j :: m <= j < m + 5 ==> minutes[j].eligible)
    && b.open == minutes[m].open && b.close == minutes[m + 4].close
    && (forall j :: m <= j < m + 5 ==> b.low <= minutes[j].low && minutes[j].high <= b.high)
    && (exists j :: m <= j < m + 5 && minutes[j].low == b.low)
    && (exists j :: m <= j < m + 5 && minutes[j].high == b.high)
    && b.quoteVolume == minutes[m].quoteVolume + minutes[m + 1].quoteVolume + minutes[m + 2].quoteVolume
                        + minutes[m + 3].quoteVolume + minutes[m + 4].quoteVolume
  }

  lemma ParentExtremes(c: seq<Minute>) returns (l: nat, h: nat)
    requires |c| == 5
    ensures l < 5 && c[l].low == Parent(c).low && forall j :: 0 <= j < 5 ==> Parent(c).low <= c[j].low
    ensures h < 5 && c[h].high == Parent(c).high && forall j :: 0 <= j < 5 ==> c[j].high <= Parent(c).high
  {
    var hs, ls := [c[0].high, c[1].high, c[2].high, c[3].high, c[4].high],
      [c[0].low, c[1].low, c[2].low, c[3].low, c[4].low];
    h :| 0 <= h < 5 && hs[h] == MaxOf(hs);
    l :| 0 <= l < 5 && ls[l] == MinOf(ls);
    assert forall j :: 0 <= j < 5 ==> hs[j] == c[j].high && ls[j] == c[j].low;
    hide MaxOf, MinOf;
  }

  lemma ParentsBuilt(minutes: seq<Minute>, k: nat)
    requires 5 * (k + 1) <= |minutes|
    ensures Built(minutes, k, Parents(minutes)[k])
  {
    var c, m := Children(minutes, k), 5 * k;
    var l, h := ParentExtremes(c);
    hide MaxOf, MinOf;
    assert c[l] == minutes[m + l] && c[h] == minutes[m + h];
    assert forall j :: m <= j < m + 5 ==> minutes[j] == c[j - m];
    assert forall j :: 0 <= j < 5 ==> c[j] == minutes[m + j];
  }

  /** A body of ten basis points or more, closing in the outer fifth of the bar it moved to. */
  ghost predicate Driven(b: Five) {
    || (&& (b.close - b.open) * 10000.0 >= 10.0 * b.open && 5.0 * (b.high - b.close) <= b.high - b.low)
    || (&& (b.open - b.close) * 10000.0 >= 10.0 * b.open && 5.0 * (b.close - b.low) <= b.high - b.low)
  }

  lemma BodyOnBar(b: Five)
    requires b.open > 0.0
    ensures BodyBps(b) * b.open == (b.close - b.open) * 10000.0
    ensures BodyBps(b) > 0.0 <==> b.close > b.open
    ensures BodyBps(b) >= 10.0 <==> (b.close - b.open) * 10000.0 >= 10.0 * b.open
    ensures BodyBps(b) <= -10.0 <==> (b.open - b.close) * 10000.0 >= 10.0 * b.open
  {
    var q := b.close / b.open;
    assert q * b.open == b.close;
    assert (q - 1.0) * 10000.0 * b.open == (b.close - b.open) * 10000.0;
    Products(BodyBps(b), 10.0, b.open);
    Products(-10.0, BodyBps(b), b.open);
    Products(0.0, BodyBps(b), b.open);
  }

  lemma Products(x: real, y: real, k: real)
    requires k > 0.0
    ensures x * k >= y * k <==> x >= y
  {
  }

  /** A bar is a setup exactly when it and the twelve before it are eligible, it moves,
      on at least twice their median volume, and is driven. */
  lemma SetupExactly(bars: seq<Five>, k: nat)
    requires k < |bars| && bars[k].open > 0.0
    ensures Setup(bars, k)
            <==> && k >= 12 && (forall j :: k - 12 <= j <= k ==> bars[j].eligible)
                 && bars[k].high > bars[k].low && Driven(bars[k])
                 && bars[k].quoteVolume >= 2.0 * Median(BurstResponse.Volumes(bars[k - 12..k])) > 0.0
  {
    hide Median, BodyBps;
    BodyOnBar(bars[k]);
    if k >= 12 {
      var m := Median(BurstResponse.Volumes(bars[k - 12..k]));
      if m > 0.0 {
        assert bars[k].quoteVolume / m * m == bars[k].quoteVolume;
        Products(bars[k].quoteVolume / m, 2.0, m);
      }
    }
  }

  /** The minutes a record needs: from its decision to its exit, sixteen minutes later. */
  ghost predicate Covered(minutes: map<int, Minute>, from: int) {
    forall t :: from <= t <= from + 16 ==> t in minutes && minutes[t].eligible
  }

  /** A record enters one minute after its decision and leaves sixteen after it, with a
      rising body for a continuation and against it for a reversal; it is measured
      exactly when its minutes are covered, and then earns the move in its direction. */
  lemma RecordExactly(minutes: map<int, Minute>, b: Burst, claim: Claim)
    requires forall t :: t in minutes && minutes[t].eligible ==> minutes[t].open > 0.0
    ensures var r := RecordOf(minutes, b, claim);
            && r.decisionClose == b.time + 5 && r.entryTime == b.time + 6 && r.exitTime == b.time + 21
            && r.side == (if (b.bodyBps > 0.0) == (claim == Continuation) then 1 else -1)
            && (r.status.Measured? <==> Covered(minutes, b.time + 5))
            && (r.status.Measured? ==>
                  && r.status.entry == minutes[b.time + 6].open && r.status.exit == minutes[b.time + 21].open
                  && r.status.entry * r.status.grossBps
                  == 10000.0 * if r.side == 1 then r.status.exit - r.status.entry else r.status.entry - r.status.exit)
  {
    if Covered(minutes, b.time + 5) {
      var entry, exit := minutes[b.time + 6].open, minutes[b.time + 21].open;
      var q := exit / entry;
      assert q * entry == exit;
      assert entry * (q - 1.0) * 10000.0 == (exit - entry) * 10000.0;
      Earned(entry, q, SideOf(b, claim));
    }
  }

  lemma Earned(entry: real, q: real, side: int)
    requires side == 1 || side == -1
    ensures entry * (side as real * (q - 1.0) * 10000.0)
         == 10000.0 * if side == 1 then q * entry - entry else entry - q * entry
  {
  }

  /** So the two claims on one setup measure opposite results. */
  lemma ClaimsOppose(minutes: map<int, Minute>, b: Burst)
    requires forall t :: t in minutes && minutes[t].eligible ==> minutes[t].open > 0.0
    requires Covered(minutes, b.time + 5)
    ensures var c, r := RecordOf(minutes, b, Continuation), RecordOf(minutes, b, Reversal);
            c.status.Measured? && r.status.Measured? && r.status.grossBps == -c.status.grossBps
  {
    RecordExactly(minutes, b, Continuation);
    RecordExactly(minutes, b, Reversal);
    var c, r := RecordOf(minutes, b, Continuation), RecordOf(minutes, b, Reversal);
    hide RecordOf;
    var e := c.status.entry;
    assert e * (c.status.grossBps + r.status.grossBps) == e * c.status.grossBps + e * r.status.grossBps == 0.0;
    ZeroFactor(e, c.status.grossBps + r.status.grossBps);
  }

  lemma ZeroFactor(e: real, x: real)
    requires e > 0.0 && e * x == 0.0
    ensures x == 0.0
  {
  }

  /** The bursts are exactly the setups, each with its own time and body. */
  lemma {:induction false} BurstsExactly(bars: seq<Five>, start: int, n: nat, b: Burst)
    requires n <= |bars|
    ensures b in Bursts(bars, start, n)
            <==> exists k: nat :: k < n && Setup(bars, k) && b == Burst(start + 5 * k, BodyBps(bars[k]))
  {
    hide Setup, BodyBps;
    if n > 0 {
      BurstsExactly(bars, start, n - 1, b);
      var before := Bursts(bars, start, n - 1);
      assert forall x :: x in Bursts(bars, start, n) <==>
        x in before || (Setup(bars, n - 1) && x == Burst(start + 5 * (n - 1), BodyBps(bars[n - 1])));
    }
  }
}
