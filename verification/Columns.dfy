/** The column operations the ported strategies are written in: forward fill, group
    by a forward-filled identity, shifted cumulative extremes and rolling windows. */
module Columns {
  import opened Common

  // ---------- forward fill ----------

  function FfillAt<T>(s: seq<Option<T>>, i: nat): Option<T>
    requires i < |s|
  {
    if s[i].Some? then s[i] else if i == 0 then None else FfillAt(s, i - 1)
  }

  /** The row numbers of the marked rows, missing elsewhere. */
  function RowNumbers(marks: seq<bool>): (s: seq<Option<nat>>)
    ensures |s| == |marks|
    ensures forall i: nat :: i < |s| ==> s[i] == if marks[i] then Some(i) else None
  {
    seq(|marks|, (i: nat) requires i < |marks| => if marks[i] then Some(i) else None)
  }

  /** Each row's group: the latest marked row at or before it. */
  function IdAt(marks: seq<bool>, i: nat): Option<nat>
    requires i < |marks|
  {
    FfillAt(RowNumbers(marks), i)
  }

  ghost predicate Latest(marks: seq<bool>, b: nat, i: nat) {
    b <= i < |marks| && marks[b] && forall k :: b < k <= i ==> !marks[k]
  }

  lemma {:induction false} IdIsLatest(marks: seq<bool>, i: nat)
    requires i < |marks|
    ensures IdAt(marks, i).Some? ==> Latest(marks, IdAt(marks, i).value, i)
    ensures IdAt(marks, i).None? ==> forall k :: 0 <= k <= i ==> !marks[k]
  {
    if !marks[i] && i > 0 {
      IdIsLatest(marks, i - 1);
    }
  }

  lemma {:induction false} LatestIsId(marks: seq<bool>, b: nat, i: nat)
    requires Latest(marks, b, i)
    ensures IdAt(marks, i) == Some(b)
  {
    if b < i {
      LatestIsId(marks, b, i - 1);
    }
  }

  /** Columns filled on the marked rows carry the value of the latest one. */
  lemma {:induction false} FfillLatest<T>(marks: seq<bool>, s: seq<Option<T>>, b: nat, i: nat)
    requires |s| == |marks| && forall k :: 0 <= k < |s| ==> (s[k].Some? <==> marks[k])
    requires Latest(marks, b, i)
    ensures FfillAt(s, i) == s[b]
  {
    if b < i {
      FfillLatest(marks, s, b, i - 1);
    }
  }

  lemma {:induction false} FfillNothing<T>(s: seq<Option<T>>, i: nat)
    requires i < |s| && forall k :: 0 <= k <= i ==> s[k].None?
    ensures FfillAt(s, i).None?
  {
    if i > 0 {
      FfillNothing(s, i - 1);
    }
  }

  // ---------- groups ----------

  /** The group's values on the rows before n, in order. */
  function Group(s: seq<real>, marks: seq<bool>, g: nat, n: nat): seq<real>
    requires n <= |s| == |marks|
  {
    if n == 0 then []
    else if IdAt(marks, n - 1) == Some(g) then Group(s, marks, g, n - 1) + [s[n - 1]]
    else Group(s, marks, g, n - 1)
  }

  /** The group's running minimum shifted by one row: missing on its first row. */
  function PriorMin(s: seq<real>, marks: seq<bool>, i: nat): Option<real>
    requires i < |s| == |marks|
  {
    if IdAt(marks, i).None? then None
    else
      var before := Group(s, marks, IdAt(marks, i).value, i);
      if before == [] then None else Some(MinOf(before))
  }

  function PriorMax(s: seq<real>, marks: seq<bool>, i: nat): Option<real>
    requires i < |s| == |marks|
  {
    if IdAt(marks, i).None? then None
    else
      var before := Group(s, marks, IdAt(marks, i).value, i);
      if before == [] then None else Some(MaxOf(before))
  }

  /** The row's position within its group. */
  function CumCount(s: seq<real>, marks: seq<bool>, i: nat): Option<nat>
    requires i < |s| == |marks|
  {
    if IdAt(marks, i).None? then None else Some(|Group(s, marks, IdAt(marks, i).value, i)|)
  }

  /** A group is the stretch from its marked row to the row before the next one. */
  lemma {:induction false} GroupIsStretch(s: seq<real>, marks: seq<bool>, b: nat, i: nat, m: nat)
    requires |s| == |marks| && Latest(marks, b, i) && m <= i + 1
    ensures Group(s, marks, b, m) == if m <= b then [] else s[b..m]
  {
    if m > 0 {
      GroupIsStretch(s, marks, b, i, m - 1);
      if m - 1 < b {
        IdIsLatest(marks, m - 1);
      } else {
        LatestIsId(marks, b, m - 1);
      }
    }
  }

  lemma PriorIsStretch(s: seq<real>, marks: seq<bool>, b: nat, i: nat)
    requires |s| == |marks| && Latest(marks, b, i)
    ensures CumCount(s, marks, i) == Some(i - b)
    ensures b == i ==> PriorMin(s, marks, i) == PriorMax(s, marks, i) == None
    ensures b < i ==> PriorMin(s, marks, i) == Some(MinOf(s[b..i])) && PriorMax(s, marks, i) == Some(MaxOf(s[b..i]))
  {
    LatestIsId(marks, b, i);
    GroupIsStretch(s, marks, b, i, i);
  }

  // ---------- rolling windows ----------

  function RollingMax(s: seq<real>, w: nat, i: nat): Option<real>
    requires i < |s| && w >= 1
  {
    if i + 1 < w then None else Some(MaxOf(s[i + 1 - w..i + 1]))
  }

  function RollingMin(s: seq<real>, w: nat, i: nat): Option<real>
    requires i < |s| && w >= 1
  {
    if i + 1 < w then None else Some(MinOf(s[i + 1 - w..i + 1]))
  }

  function RollingMean(s: seq<real>, w: nat, i: nat): Option<real>
    requires i < |s| && w >= 1
  {
    if i + 1 < w then None else Some(Sum(s[i + 1 - w..i + 1]) / w as real)
  }

  // ---------- average true range ----------

  function TrueRange(bars: seq<Bar>, i: nat): real
    requires 1 <= i < |bars|
  {
    Max(bars[i].high - bars[i].low,
        Max(Abs(bars[i].high - bars[i - 1].close), Abs(bars[i].low - bars[i - 1].close)))
  }

  function TrueRanges(bars: seq<Bar>, lo: nat, hi: nat): (s: seq<real>)
    requires 1 <= lo <= hi <= |bars|
    ensures |s| == hi - lo
    ensures forall k :: 0 <= k < |s| ==> s[k] == TrueRange(bars, lo + k)
  {
    seq(hi - lo, k requires 0 <= k < hi - lo => TrueRange(bars, lo + k))
  }

  /** The rolling mean true range; missing while the window holds the first bar,
      whose true range is missing. */
  function AtrAt(bars: seq<Bar>, w: nat, i: nat): Option<real>
    requires i < |bars| && w >= 1
  {
    if i < w then None else Some(Sum(TrueRanges(bars, i + 1 - w, i + 1)) / w as real)
  }

  function Atr(bars: seq<Bar>, w: nat): (s: seq<Option<real>>)
    requires w >= 1
    ensures |s| == |bars| && forall i: nat :: i < |s| ==> s[i] == AtrAt(bars, w, i)
  {
    seq(|bars|, (i: nat) requires i < |bars| => AtrAt(bars, w, i))
  }

  /** Once every bar has a positive range the average is positive from row w on, and
      never missing again. */
  lemma AtrPositive(bars: seq<Bar>, w: nat, i: nat)
    requires w <= i < |bars| && w >= 1
    requires forall k :: 0 <= k < |bars| ==> bars[k].low < bars[k].high
    ensures AtrAt(bars, w, i).Some? && AtrAt(bars, w, i).value > 0.0
  {
    SumPositive(TrueRanges(bars, i + 1 - w, i + 1));
  }

  lemma {:induction false} SumPositive(s: seq<real>)
    requires s != [] && forall k :: 0 <= k < |s| ==> s[k] > 0.0
    ensures Sum(s) > 0.0
  {
    if |s| > 1 {
      SumPositive(s[..|s| - 1]);
    } else {
      assert Sum(s[..0]) == 0.0;
    }
  }

  /** With a window of one bar the average is the bar's own true range. */
  lemma AtrOfOneBar(bars: seq<Bar>, i: nat)
    requires 1 <= i < |bars|
    ensures AtrAt(bars, 1, i) == Some(TrueRange(bars, i))
  {
    var s := TrueRanges(bars, i, i + 1);
    assert s[..0] == [];
    assert Sum(s) == Sum(s[..0]) + s[0];
  }
}
