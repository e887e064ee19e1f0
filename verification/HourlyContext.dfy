/** The hourly context of the scoring study. Time is counted in five-minute
    slots: slot i of a calendar has number first + i, and hour h covers the slot
    numbers 12h to 12h + 11. */
module HourlyContext {
  import opened Common
  import opened Indicators

  datatype Hour = Incomplete | Complete(close: real)

  datatype Regime = Unknown | Range | Up | Down

  /** hashes lists the children the regime was computed from, if there is one. */
  datatype Context = Context(regime: Regime, hashes: Option<seq<string>>)

  function HourOf(slot: int): int {
    slot / 12
  }

  /** Only twelve eligible children make an hour. */
  function HourAt(bars: seq<Slot>, first: int, h: int): Hour {
    var lo := 12 * h - first;
    if 0 <= lo && lo + 12 <= |bars| && forall k :: lo <= k < lo + 12 ==> bars[k].eligible
    then Complete(bars[lo + 11].close)
    else Incomplete
  }

  function StepSize(xs: seq<real>, k: nat): real
    requires k < |xs|
  {
    if k == 0 then 0.0 else Abs(xs[k] - xs[k - 1])
  }

  function Steps(xs: seq<real>): (s: seq<real>)
    ensures |s| == |xs| && forall k :: 0 <= k < |s| ==> s[k] == StepSize(xs, k)
  {
    seq(|xs|, k requires 0 <= k < |xs| => StepSize(xs, k))
  }

  /** Net move over path length across twenty hourly steps; a flat path reads 0. */
  function Efficiency(xs: seq<real>, j: nat): Option<real>
    requires j < |xs|
  {
    if j < 20 then None
    else
      var path := Sum(Steps(xs)[j - 19..j + 1]);
      if path == 0.0 then Some(0.0) else Some(Abs(xs[j] - xs[j - 20]) / path)
  }

  function RegimeOn(xs: seq<real>, j: nat): Regime
    requires j < |xs|
  {
    var er := Efficiency(xs, j);
    if er.None? then Unknown
    else if er.value >= 0.3 && xs[j] != Ema(xs, 20, j) then
      if xs[j] > Ema(xs, 20, j) then Up else Down
    else Range
  }

  /** First hour of the unbroken stretch of complete hours that contains h. */
  function StretchStart(bars: seq<Slot>, first: int, h: int): (s: int)
    requires HourAt(bars, first, h).Complete?
    ensures s <= h && first <= 12 * s
    ensures forall m :: s <= m <= h ==> HourAt(bars, first, m).Complete?
    ensures HourAt(bars, first, s - 1).Incomplete?
    decreases 12 * h - first
  {
    if HourAt(bars, first, h - 1).Incomplete? then h else StretchStart(bars, first, h - 1)
  }

  /** One past the last hour of that stretch. */
  function StretchEnd(bars: seq<Slot>, first: int, h: int): (e: int)
    requires HourAt(bars, first, h).Complete?
    ensures h < e
    ensures forall m :: h <= m < e ==> HourAt(bars, first, m).Complete?
    ensures HourAt(bars, first, e).Incomplete?
    decreases first + |bars| - 12 * h
  {
    if HourAt(bars, first, h + 1).Incomplete? then h + 1 else StretchEnd(bars, first, h + 1)
  }

  function HourCloses(bars: seq<Slot>, first: int, s: int, e: int): (xs: seq<real>)
    requires s <= e && forall m :: s <= m < e ==> HourAt(bars, first, m).Complete?
    ensures |xs| == e - s
    ensures forall k :: 0 <= k < e - s ==> xs[k] == HourAt(bars, first, s + k).close
  {
    seq(e - s, k requires 0 <= k < e - s => HourAt(bars, first, s + k).close)
  }

  /** The regime label of hour h, computed on its whole stretch; an hour that is
      incomplete or outside the calendar has none. */
  function RegimeAt(bars: seq<Slot>, first: int, h: int): Regime {
    if HourAt(bars, first, h).Incomplete? then Unknown
    else
      var s := StretchStart(bars, first, h);
      RegimeOn(HourCloses(bars, first, s, StretchEnd(bars, first, h)), h - s)
  }

  /** The last hour that has ended by the decision close of slot i. */
  function ParentHour(first: int, i: nat): (h: int)
    ensures 12 * (h + 1) <= first + i + 1 < 12 * (h + 2)
  {
    HourOf(first + i + 1) - 1
  }

  function ContextAt(bars: seq<Slot>, first: int, i: nat): Context
    requires i < |bars|
  {
    var parent := ParentHour(first, i);
    var regime := RegimeAt(bars, first, parent);
    if regime == Unknown then Context(Unknown, None)
    else
      var lo := 12 * StretchStart(bars, first, parent) - first;
      Context(regime, Some(HashesIn(bars, lo, 12 * (parent + 1) - first)))
  }

  /** The content hashes of the slots from lo up to hi. */
  function HashesIn(bars: seq<Slot>, lo: int, hi: int): (s: seq<string>)
    requires 0 <= lo <= hi <= |bars|
    ensures |s| == hi - lo && forall k :: 0 <= k < hi - lo ==> s[k] == bars[lo + k].hash
  {
    seq(hi - lo, k requires 0 <= k < hi - lo => bars[lo + k].hash)
  }

  lemma KnownNeedsHistory(xs: seq<real>, j: nat)
    requires j < |xs|
    ensures RegimeOn(xs, j) != Unknown ==> j >= 20
  {
  }

  /** A known regime rests on at least 21 consecutive complete hours that have
      all ended by the decision close; its hashes are exactly their slots. */
  lemma ContextCovers(bars: seq<Slot>, first: int, i: nat)
    requires i < |bars| && ContextAt(bars, first, i).regime != Unknown
    ensures var parent, c := ParentHour(first, i), ContextAt(bars, first, i);
            && HourAt(bars, first, parent).Complete?
            && var s := StretchStart(bars, first, parent);
            && s + 20 <= parent
            && c.hashes == Some(HashesIn(bars, 12 * s - first, 12 * (parent + 1) - first))
            && 12 * (parent + 1) - first <= i + 1
            && forall k :: 12 * s - first <= k < 12 * (parent + 1) - first ==> bars[k].eligible
  {
    hide RegimeOn, Efficiency, HourCloses;
    var parent := ParentHour(first, i);
    var s := StretchStart(bars, first, parent);
    KnownNeedsHistory(HourCloses(bars, first, s, StretchEnd(bars, first, parent)), parent - s);
    forall k | 12 * s - first <= k < 12 * (parent + 1) - first ensures bars[k].eligible {
      assert HourAt(bars, first, HourOf(first + k)).Complete?;
    }
  }

  // ---------- causality ----------

  lemma RegimeCausal(xs: seq<real>, ys: seq<real>, j: nat)
    requires j < |xs| && j < |ys| && forall k :: 0 <= k <= j ==> xs[k] == ys[k]
    ensures RegimeOn(xs, j) == RegimeOn(ys, j)
  {
    EmaCausal(xs, ys, 20, j);
    EfficiencyCausal(xs, ys, j);
    hide Ema, Efficiency;
  }

  lemma EfficiencyCausal(xs: seq<real>, ys: seq<real>, j: nat)
    requires j < |xs| && j < |ys| && forall k :: 0 <= k <= j ==> xs[k] == ys[k]
    ensures Efficiency(xs, j) == Efficiency(ys, j)
  {
    if j >= 20 {
      assert Steps(xs)[j - 19..j + 1] == Steps(ys)[j - 19..j + 1];
    }
  }

  /** An hour that has ended by slot i is fixed by the slots up to i. */
  lemma HourCausal(a: seq<Slot>, b: seq<Slot>, first: int, i: nat, h: int)
    requires i < |a| && i < |b| && forall k :: 0 <= k <= i ==> a[k] == b[k]
    requires 12 * (h + 1) <= first + i + 1
    ensures HourAt(a, first, h) == HourAt(b, first, h)
  {
  }

  lemma {:induction false} StretchCausal(a: seq<Slot>, b: seq<Slot>, first: int, i: nat, h: int)
    requires i < |a| && i < |b| && forall k :: 0 <= k <= i ==> a[k] == b[k]
    requires 12 * (h + 1) <= first + i + 1 && HourAt(a, first, h).Complete?
    ensures HourAt(b, first, h) == HourAt(a, first, h)
    ensures StretchStart(a, first, h) == StretchStart(b, first, h)
    decreases 12 * h - first
  {
    hide HourAt;
    HourCausal(a, b, first, i, h);
    HourCausal(a, b, first, i, h - 1);
    if HourAt(a, first, h - 1).Complete? {
      StretchFits(a, first, h - 1);
      StretchCausal(a, b, first, i, h - 1);
    }
  }

  lemma StretchFits(bars: seq<Slot>, first: int, h: int)
    requires HourAt(bars, first, h).Complete?
    ensures first <= 12 * h && 12 * (h + 1) <= first + |bars|
  {
  }

  lemma LabelCausal(a: seq<Slot>, b: seq<Slot>, first: int, i: nat, h: int)
    requires i < |a| && i < |b| && forall k :: 0 <= k <= i ==> a[k] == b[k]
    requires 12 * (h + 1) <= first + i + 1
    ensures RegimeAt(a, first, h) == RegimeAt(b, first, h)
  {
    hide HourAt, RegimeOn, StretchStart, StretchEnd;
    HourCausal(a, b, first, i, h);
    if HourAt(a, first, h).Complete? {
      StretchCausal(a, b, first, i, h);
      var s := StretchStart(a, first, h);
      var xs := HourCloses(a, first, s, StretchEnd(a, first, h));
      var ys := HourCloses(b, first, s, StretchEnd(b, first, h));
      forall k | 0 <= k <= h - s ensures xs[k] == ys[k] {
        HourCausal(a, b, first, i, s + k);
      }
      RegimeCausal(xs, ys, h - s);
    }
  }

  /** The context of a decision uses nothing after its own close. */
  lemma ContextCausal(a: seq<Slot>, b: seq<Slot>, first: int, i: nat)
    requires i < |a| && i < |b| && forall k :: 0 <= k <= i ==> a[k] == b[k]
    ensures ContextAt(a, first, i) == ContextAt(b, first, i)
  {
    hide HourAt, RegimeOn, StretchStart, StretchEnd;
    var parent := ParentHour(first, i);
    LabelCausal(a, b, first, i, parent);
    if RegimeAt(a, first, parent) != Unknown {
      StretchCausal(a, b, first, i, parent);
      StretchFits(a, first, parent);
      StretchFits(b, first, parent);
      var lo, hi := 12 * StretchStart(a, first, parent) - first, 12 * (parent + 1) - first;
      assert HashesIn(a, lo, hi) == HashesIn(b, lo, hi);
    }
  }

  // ---------- restart ----------

  /** Hours that begin after a bad slot are the same in the calendar after it,
      and the hour of the bad slot is complete in neither. */
  lemma HourRestart(bars: seq<Slot>, first: int, d: nat, h: int)
    requires 0 < d < |bars| && !bars[d - 1].eligible
    requires h >= HourOf(first + d - 1)
    ensures HourAt(bars, first, h) == HourAt(bars[d..], first + d, h)
    ensures h == HourOf(first + d - 1) ==> HourAt(bars, first, h).Incomplete?
  {
    var lo := 12 * h - first;
    if h == HourOf(first + d - 1) {
      assert lo <= d - 1 < lo + 12;
    } else {
      assert lo >= d;
      if lo + 12 <= |bars| {
        assert forall k :: lo <= k < lo + 12 ==> bars[k] == bars[d..][k - d];
        assert forall k :: lo - d <= k < lo - d + 12 ==> bars[k + d] == bars[d..][k];
      }
    }
  }

  /** The stretch that ends at an hour after the bad slot starts after it. */
  lemma {:induction false} StretchRestart(bars: seq<Slot>, first: int, d: nat, h: int)
    requires 0 < d < |bars| && !bars[d - 1].eligible
    requires HourOf(first + d - 1) < h && HourAt(bars, first, h).Complete?
    ensures HourAt(bars[d..], first + d, h) == HourAt(bars, first, h)
    ensures HourOf(first + d - 1) < StretchStart(bars, first, h) == StretchStart(bars[d..], first + d, h)
    decreases h - HourOf(first + d - 1)
  {
    hide HourAt;
    HourRestart(bars, first, d, h);
    HourRestart(bars, first, d, h - 1);
    if HourAt(bars, first, h - 1).Complete? {
      StretchRestart(bars, first, d, h - 1);
    }
  }

  lemma LabelRestart(bars: seq<Slot>, first: int, d: nat, h: int)
    requires 0 < d < |bars| && !bars[d - 1].eligible
    requires HourOf(first + d - 1) < h
    ensures RegimeAt(bars, first, h) == RegimeAt(bars[d..], first + d, h)
  {
    hide HourAt, RegimeOn, StretchStart, StretchEnd;
    HourRestart(bars, first, d, h);
    if HourAt(bars, first, h).Complete? {
      StretchRestart(bars, first, d, h);
      var s := StretchStart(bars, first, h);
      var xs := HourCloses(bars, first, s, StretchEnd(bars, first, h));
      var ys := HourCloses(bars[d..], first + d, s, StretchEnd(bars[d..], first + d, h));
      forall k | 0 <= k <= h - s ensures xs[k] == ys[k] {
        HourRestart(bars, first, d, s + k);
      }
      RegimeCausal(xs, ys, h - s);
    }
  }

  /** Once fifty slots have passed since a bad slot, the hourly context is the
      one a calendar starting after that slot would give. */
  lemma ContextRestart(bars: seq<Slot>, first: int, d: nat, j: nat)
    requires 0 < d && d + j < |bars| && !bars[d - 1].eligible
    requires j >= 49
    ensures ContextAt(bars, first, d + j) == ContextAt(bars[d..], first + d, j)
  {
    hide HourAt, RegimeOn, StretchStart, StretchEnd;
    var parent := ParentHour(first, d + j);
    assert parent == ParentHour(first + d, j);
    LabelRestart(bars, first, d, parent);
    if RegimeAt(bars, first, parent) != Unknown {
      StretchRestart(bars, first, d, parent);
      StretchFits(bars, first, parent);
      var lo, hi := 12 * StretchStart(bars, first, parent) - first, 12 * (parent + 1) - first;
      assert lo >= d;
      assert HashesIn(bars, lo, hi) == HashesIn(bars[d..], lo - d, hi - d);
    }
  }
}
