/** Which way the hourly regime of the scoring study points, read off the slots, and
    which calendars the study refuses. */
module HourlyRegimes {
  import opened Common
  import opened Indicators
  import opened HourlyContext
  import opened ScoringStudy

  // ---------- the label of a series ----------

  /** The path of the last twenty steps. */
  function Path(xs: seq<real>, j: nat): real
    requires 20 <= j < |xs|
  {
    Sum(Steps(xs)[j - 19..j + 1])
  }

  /** Three tenths of the path or more is net progress. */
  ghost predicate Directed(xs: seq<real>, j: nat)
    requires j < |xs|
  {
    j >= 20 && Path(xs, j) > 0.0 && 10.0 * Abs(xs[j] - xs[j - 20]) >= 3.0 * Path(xs, j)
  }

  lemma StepsNonNegative(xs: seq<real>, j: nat)
    requires 20 <= j < |xs|
    ensures Path(xs, j) >= 0.0
  {
    SumNonNegative(Steps(xs)[j - 19..j + 1]);
  }

  lemma ThreeTenths(net: real, path: real)
    requires path > 0.0
    ensures net / path >= 0.3 <==> 10.0 * net >= 3.0 * path
  {
    var q := net / path;
    assert q * path == net;
    Products(q, 0.3, path);
  }

  lemma Products(x: real, y: real, k: real)
    requires k > 0.0
    ensures x * k >= y * k <==> x >= y
  {
  }

  /** Up above the mean and down below it when directed; otherwise a range, once there
      are twenty hours before. */
  lemma RegimeExactly(xs: seq<real>, j: nat)
    requires j < |xs|
    ensures RegimeOn(xs, j) == Unknown <==> j < 20
    ensures RegimeOn(xs, j) == Up <==> Directed(xs, j) && xs[j] > Ema(xs, 20, j)
    ensures RegimeOn(xs, j) == Down <==> Directed(xs, j) && xs[j] < Ema(xs, 20, j)
  {
    hide Sum, Ema;
    if j >= 20 {
      StepsNonNegative(xs, j);
      if Path(xs, j) > 0.0 {
        ThreeTenths(Abs(xs[j] - xs[j - 20]), Path(xs, j));
      }
    }
  }

  lemma {:induction false} EmaBelow(xs: seq<real>, span: nat, j: nat, top: real)
    requires j < |xs| && span >= 1 && forall k :: 0 <= k <= j ==> xs[k] <= top
    ensures Ema(xs, span, j) <= top
  {
    if j > 0 {
      EmaBelow(xs, span, j - 1, top);
      Between(Ema(xs, span, j - 1), xs[j], 2.0 / (span as real + 1.0), top);
    }
  }

  lemma Between(e: real, x: real, a: real, top: real)
    requires 0.0 <= a <= 1.0 && e <= top && x <= top
    ensures e + a * (x - e) <= top
  {
    assert (1.0 - a) * (top - e) >= 0.0 && a * (top - x) >= 0.0;
    assert top - (e + a * (x - e)) == (1.0 - a) * (top - e) + a * (top - x);
  }

  lemma {:induction false} RisingPath(xs: seq<real>, j: nat, n: nat)
    requires 20 <= j < |xs| && n <= 20 && forall k :: j - 20 < k <= j ==> xs[k - 1] <= xs[k]
    ensures Sum(Steps(xs)[j - 19..j - 19 + n]) == xs[j - 20 + n] - xs[j - 20]
  {
    if n > 0 {
      RisingPath(xs, j, n - 1);
      var s := Steps(xs)[j - 19..j - 19 + n];
      assert s[..n - 1] == Steps(xs)[j - 19..j - 19 + n - 1];
      assert s[n - 1] == xs[j - 20 + n] - xs[j - 21 + n];
    }
  }

  /** Hours that rise all the way are in an up regime, a net twenty-hour standstill is not. */
  lemma RisingIsUp(xs: seq<real>, j: nat)
    requires 20 <= j < |xs| && forall k :: 0 < k <= j ==> xs[k - 1] < xs[k]
    ensures RegimeOn(xs, j) == Up
  {
    RegimeExactly(xs, j);
    RisingPath(xs, j, 20);
    RisingOrder(xs, j);
    EmaBelow(xs, 20, j - 1, xs[j - 1]);
    StrictlyBelow(Ema(xs, 20, j - 1), xs[j], 2.0 / 21.0);
    hide Ema, Sum, RegimeOn;
  }

  lemma {:induction false} RisingOrder(xs: seq<real>, j: nat)
    requires j < |xs| && forall k :: 0 < k <= j ==> xs[k - 1] < xs[k]
    ensures forall k :: 0 <= k < j ==> xs[k] < xs[j] && (j > 0 ==> xs[k] <= xs[j - 1])
  {
    if j > 0 {
      RisingOrder(xs, j - 1);
    }
  }

  lemma StrictlyBelow(e: real, x: real, a: real)
    requires e < x && 0.0 < a < 1.0
    ensures e + a * (x - e) < x
  {
    var p, q := 1.0 - a, x - e;
    assert p * q > 0.0;
    assert x - (e + a * (x - e)) == p * q;
  }

  lemma StandstillIsRange(xs: seq<real>, j: nat)
    requires 20 <= j < |xs| && xs[j] == xs[j - 20]
    ensures RegimeOn(xs, j) == Range
  {
    RegimeExactly(xs, j);
    hide Ema, Sum;
  }

  // ---------- the label of a bar ----------

  /** The twelve slots of hour h are in the calendar and eligible. */
  ghost predicate Whole(bars: seq<Slot>, first: int, h: int) {
    var lo := 12 * h - first;
    0 <= lo && lo + 12 <= |bars| && forall k :: lo <= k < lo + 12 ==> bars[k].eligible
  }

  lemma HourExactly(bars: seq<Slot>, first: int, h: int)
    ensures HourAt(bars, first, h).Complete? <==> Whole(bars, first, h)
    ensures Whole(bars, first, h) ==> HourAt(bars, first, h).close == bars[12 * h + 11 - first].close
  {
  }

  /** xs are the closes of the unbroken whole hours from s up to h. */
  ghost predicate Stretch(bars: seq<Slot>, first: int, s: int, h: int, xs: seq<real>) {
    && s <= h && |xs| == h - s + 1 && !Whole(bars, first, s - 1)
    && forall m :: s <= m <= h ==> Whole(bars, first, m) && xs[m - s] == bars[12 * m + 11 - first].close
  }

  lemma {:induction false} StartOfStretch(bars: seq<Slot>, first: int, s: int, h: int, xs: seq<real>)
    requires Stretch(bars, first, s, h, xs)
    ensures HourAt(bars, first, h).Complete? && StretchStart(bars, first, h) == s
  {
    hide HourAt, Whole;
    forall m | s - 1 <= m <= h ensures HourAt(bars, first, m).Complete? <==> Whole(bars, first, m) {
      HourExactly(bars, first, m);
    }
    var t := StretchStart(bars, first, h);
    assert HourAt(bars, first, s - 1).Incomplete? && HourAt(bars, first, t - 1).Incomplete?;
  }

  /** The context of a bar is that of the last hour over by its close: unknown unless
      that hour is whole, and otherwise the label of its stretch. */
  lemma ContextExactly(bars: seq<Slot>, first: int, i: nat, h: int)
    requires i < |bars| && 12 * (h + 1) <= first + i + 1 < 12 * (h + 2)
    ensures !Whole(bars, first, h) ==> ContextAt(bars, first, i).regime == Unknown
    ensures forall s, xs :: Stretch(bars, first, s, h, xs) ==>
              var regime := ContextAt(bars, first, i).regime;
              && (regime == Unknown <==> h - s < 20)
              && (regime == Up <==> Directed(xs, h - s) && xs[h - s] > Ema(xs, 20, h - s))
              && (regime == Down <==> Directed(xs, h - s) && xs[h - s] < Ema(xs, 20, h - s))
  {
    hide HourAt, Whole, RegimeOn, StretchStart, StretchEnd, Stretch, Directed, Ema;
    assert ParentHour(first, i) == h;
    HourExactly(bars, first, h);
    forall s, xs | Stretch(bars, first, s, h, xs)
      ensures s <= h < s + |xs| && ContextAt(bars, first, i).regime == RegimeOn(xs, h - s)
    {
      ContextOfStretch(bars, first, i, s, h, xs);
    }
    forall s, xs | Stretch(bars, first, s, h, xs)
      ensures var regime := ContextAt(bars, first, i).regime;
              && (regime == Unknown <==> h - s < 20)
              && (regime == Up <==> Directed(xs, h - s) && xs[h - s] > Ema(xs, 20, h - s))
              && (regime == Down <==> Directed(xs, h - s) && xs[h - s] < Ema(xs, 20, h - s))
    {
      RegimeExactly(xs, h - s);
    }
  }

  lemma ContextOfStretch(bars: seq<Slot>, first: int, i: nat, s: int, h: int, xs: seq<real>)
    requires i < |bars| && ParentHour(first, i) == h && Stretch(bars, first, s, h, xs)
    ensures s <= h < s + |xs| && ContextAt(bars, first, i).regime == RegimeOn(xs, h - s)
  {
    hide RegimeOn, StretchStart, StretchEnd;
    StartOfStretch(bars, first, s, h, xs);
    var closes := HourCloses(bars, first, s, StretchEnd(bars, first, h));
    forall k | 0 <= k <= h - s ensures closes[k] == xs[k] {
      HourExactly(bars, first, s + k);
      assert xs[s + k - s] == bars[12 * (s + k) + 11 - first].close;
    }
    RegimeCausal(closes, xs, h - s);
  }

  // ---------- refused calendars ----------

  lemma {:induction false} StepsApart(index: seq<int>, k: nat)
    requires EverySlot(index) && k < |index|
    ensures index[k] == index[0] + 300 * k
  {
    if k > 0 {
      StepsApart(index, k - 1);
    }
  }

  lemma {:induction false} InOrder(index: seq<int>, j: nat, k: nat)
    requires Increasing(index) && j < k < |index|
    ensures index[j] < index[k]
    decreases k
  {
    if j < k - 1 {
      InOrder(index, j, k - 1);
    }
  }

  /** A calendar is accepted exactly when its times are every five minutes from the
      first on and no eligible bar is still forming. */
  lemma AcceptedExactly(index: seq<int>, bars: seq<Slot>)
    requires |index| == |bars|
    ensures Study(index, bars).Generated?
            <==> && (forall k :: 0 <= k < |index| ==> index[k] == index[0] + 300 * k)
                 && (forall k :: 0 <= k < |bars| && bars[k].eligible ==> bars[k].isClosed)
    ensures Study(index, bars) == Rejected(CalendarIdentityInvalid)
            <==> !(forall j, k :: 0 <= j < k < |index| ==> index[j] < index[k])
  {
    hide Run;
    if EverySlot(index) {
      forall k | 0 <= k < |index| ensures index[k] == index[0] + 300 * k {
        StepsApart(index, k);
      }
    }
    if Increasing(index) {
      forall j, k | 0 <= j < k < |index| ensures index[j] < index[k] {
        InOrder(index, j, k);
      }
    }
  }
}
