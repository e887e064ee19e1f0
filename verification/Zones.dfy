/** Price zones carried forward from the bar that formed them, with the columns that
    say whether any earlier bar has reached them. A long zone is approached from
    above, a short zone from below. */
module Zones {
  import opened Columns
  import opened Common

  datatype Zone = Zone(top: real, bottom: real)

  /** One row of the zone columns of a side. */
  datatype Feature = Feature(id: Option<nat>, top: Option<real>, bottom: Option<real>, prior: Option<real>,
                             age: Option<nat>)

  ghost predicate SameRows(marks: seq<bool>, s: seq<Option<real>>) {
    |s| == |marks| && forall k :: 0 <= k < |s| ==> (s[k].Some? <==> marks[k])
  }

  function Prior(side: Side, bars: seq<Bar>, marks: seq<bool>, i: nat): Option<real>
    requires i < |bars| == |marks|
  {
    if side == Long then PriorMin(Lows(bars), marks, i) else PriorMax(Highs(bars), marks, i)
  }

  function FeatureAt(side: Side, bars: seq<Bar>, marks: seq<bool>, tops: seq<Option<real>>, bottoms: seq<Option<real>>,
                     i: nat): Feature
    requires i < |bars| == |marks| == |tops| == |bottoms|
  {
    Feature(IdAt(marks, i), FfillAt(tops, i), FfillAt(bottoms, i), Prior(side, bars, marks, i),
            CumCount(Lows(bars), marks, i))
  }

  /** The bar stays strictly outside the zone's near edge. */
  predicate Clear(side: Side, b: Bar, z: Zone) {
    if side == Long then b.low > z.top else b.high < z.bottom
  }

  /** The bar reaches the zone without passing its far edge, and closes this side
      of that edge. */
  predicate Retraces(side: Side, b: Bar, z: Zone) {
    if side == Long then z.bottom <= b.low <= z.top && b.close > z.bottom
    else z.bottom <= b.high <= z.top && b.close < z.top
  }

  /** Every bar from a to just before i stays clear of the zone. */
  ghost predicate ClearBetween(side: Side, bars: seq<Bar>, z: Zone, a: nat, i: nat)
    requires i <= |bars|
  {
    forall k :: a <= k < i ==> Clear(side, bars[k], z)
  }

  /** No earlier row of the group reached the zone, read off the prior column. */
  predicate PriorClear(side: Side, prior: Option<real>, z: Zone) {
    prior.Some? ==> if side == Long then prior.value > z.top else prior.value < z.bottom
  }

  /** Identity and zone always come from the same bar, and the prior column covers
      exactly the bars from that one to the row before. */
  lemma FeatureNamesOneBar(side: Side, bars: seq<Bar>, marks: seq<bool>, tops: seq<Option<real>>,
                           bottoms: seq<Option<real>>, i: nat)
    requires i < |bars| == |marks| && SameRows(marks, tops) && SameRows(marks, bottoms)
    ensures var f := FeatureAt(side, bars, marks, tops, bottoms, i);
            && (f.id.None? <==> forall k :: 0 <= k <= i ==> !marks[k])
            && (f.id.None? ==> f.top.None? && f.bottom.None?)
            && (f.id.Some? ==>
                  && Latest(marks, f.id.value, i)
                  && f.top == tops[f.id.value] && f.bottom == bottoms[f.id.value] && f.top.Some? && f.bottom.Some?
                  && f.age == Some(i - f.id.value) && (f.prior.None? <==> f.id.value == i)
                  && var z := Zone(f.top.value, f.bottom.value);
                  PriorClear(side, f.prior, z) <==> ClearBetween(side, bars, z, f.id.value, i))
  {
    hide FfillAt, Group;
    IdIsLatest(marks, i);
    var f := FeatureAt(side, bars, marks, tops, bottoms, i);
    match f.id {
      case None =>
        FfillNothing(tops, i);
        FfillNothing(bottoms, i);
      case Some(b) =>
        FfillLatest(marks, tops, b, i);
        FfillLatest(marks, bottoms, b, i);
        PriorIsStretch(Lows(bars), marks, b, i);
        PriorIsStretch(Highs(bars), marks, b, i);
        PriorClearIsClear(side, bars, b, i, Zone(f.top.value, f.bottom.value));
    }
  }

  lemma PriorClearIsClear(side: Side, bars: seq<Bar>, b: nat, i: nat, z: Zone)
    requires b <= i < |bars|
    ensures b < i ==>
      ClearBetween(side, bars, z, b, i)
      == if side == Long then MinOf(Lows(bars)[b..i]) > z.top else MaxOf(Highs(bars)[b..i]) < z.bottom
  {
    if b < i {
      match side {
        case Long =>
          var s := Lows(bars)[b..i];
          assert forall k :: b <= k < i ==> s[k - b] == bars[k].low;
          assert forall j :: 0 <= j < |s| ==> s[j] == bars[b + j].low;
        case Short =>
          var s := Highs(bars)[b..i];
          assert forall k :: b <= k < i ==> s[k - b] == bars[k].high;
          assert forall j :: 0 <= j < |s| ==> s[j] == bars[b + j].high;
      }
    }
  }

  // ---------- the stateful reading ----------

  /** The freshest zone and whether no bar has reached it yet. */
  datatype Tracked = Tracked(id: nat, zone: Zone, untouched: bool)

  /** What a bar-by-bar tracker remembers after bar i: a new zone replaces the old
      one, and any bar that reaches the zone spends it. */
  function Track(side: Side, bars: seq<Bar>, tops: seq<Option<real>>, bottoms: seq<Option<real>>, i: nat)
    : Option<Tracked>
    requires i < |bars| == |tops| == |bottoms|
  {
    if tops[i].Some? && bottoms[i].Some? then
      var z := Zone(tops[i].value, bottoms[i].value);
      Some(Tracked(i, z, Clear(side, bars[i], z)))
    else if i == 0 then None
    else
      match Track(side, bars, tops, bottoms, i - 1)
      case None => None
      case Some(t) => Some(t.(untouched := t.untouched && Clear(side, bars[i], t.zone)))
  }

  /** The columns at a row say what the tracker knew before it: the same zone, and
      whether it was still untouched. */
  lemma {:induction false} ColumnsAreTracker(side: Side, bars: seq<Bar>, marks: seq<bool>, tops: seq<Option<real>>,
                                             bottoms: seq<Option<real>>, i: nat)
    requires i < |bars| == |marks| && SameRows(marks, tops) && SameRows(marks, bottoms)
    ensures var t := Track(side, bars, tops, bottoms, i);
            && (IdAt(marks, i).None? <==> t.None?)
            && (t.Some? ==>
                  && IdAt(marks, i) == Some(t.value.id) && t.value.id <= i
                  && tops[t.value.id] == Some(t.value.zone.top) && bottoms[t.value.id] == Some(t.value.zone.bottom)
                  && (t.value.untouched <==> ClearBetween(side, bars, t.value.zone, t.value.id, i + 1)))
  {
    hide Clear;
    if !marks[i] && i > 0 {
      ColumnsAreTracker(side, bars, marks, tops, bottoms, i - 1);
    }
  }

  /** A zone retraced at i is no longer clear afterwards. */
  lemma RetraceSpends(side: Side, bars: seq<Bar>, z: Zone, a: nat, i: nat, j: nat)
    requires a <= i < j <= |bars| && Retraces(side, bars[i], z)
    ensures !ClearBetween(side, bars, z, a, j)
  {
    assert !Clear(side, bars[i], z);
  }

  // ---------- the entry ----------

  /** Stop beyond the far edge by a multiple of the ATR, target a multiple of the risk. */
  function EntryAt(side: Side, b: Bar, z: Zone, atr: real, stopPad: real, takeProfitR: real): Option<Intent> {
    if side == Long then
      var stop := z.bottom - Times(stopPad, atr);
      var risk := b.close - stop;
      if risk > 0.0 then Some(Intent(Long, stop, Some(b.close + Times(takeProfitR, risk)))) else None
    else
      var stop := z.top + Times(stopPad, atr);
      var risk := stop - b.close;
      if risk > 0.0 then Some(Intent(Short, stop, Some(b.close - Times(takeProfitR, risk)))) else None
  }

  /** A retrace leaves risk to take whenever the pad is not negative. */
  lemma EntryExists(side: Side, b: Bar, z: Zone, atr: real, stopPad: real, takeProfitR: real)
    requires Retraces(side, b, z) && atr > 0.0 && stopPad >= 0.0
    ensures EntryAt(side, b, z, atr, stopPad, takeProfitR).Some?
  {
    hide Times;
    TimesSign(stopPad, atr);
  }

  /** The stop lies beyond the zone and the target beyond the close. */
  lemma EntryGeometry(side: Side, b: Bar, z: Zone, atr: real, stopPad: real, takeProfitR: real)
    requires Retraces(side, b, z) && atr > 0.0 && stopPad >= 0.0 && takeProfitR > 0.0
    ensures EntryAt(side, b, z, atr, stopPad, takeProfitR).Some?
    ensures var s := EntryAt(side, b, z, atr, stopPad, takeProfitR).value;
            s.target.Some?
            && if side == Long then s.stop <= z.bottom < b.close < s.target.value
               else s.target.value < b.close < z.top <= s.stop
  {
    hide Times;
    TimesSign(stopPad, atr);
    if side == Long {
      TimesSign(takeProfitR, b.close - (z.bottom - Times(stopPad, atr)));
    } else {
      TimesSign(takeProfitR, z.top + Times(stopPad, atr) - b.close);
    }
  }
}
