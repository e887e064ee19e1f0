/** The Supertrend flip candidate: two trailing bands, a direction that flips when the
    close passes the band against it, and entries on the flips. */
module Supertrend {
  import opened Columns
  import opened Common

  datatype Config = Config(mult: real, minStopAtr: real)

  /** The four columns on a row: they are missing together. */
  datatype Cell = Cell(upper: real, lower: real, up: bool)

  function UpperBasic(b: Bar, atr: real, mult: real): real {
    (b.high + b.low) / 2.0 + Times(mult, atr)
  }

  function LowerBasic(b: Bar, atr: real, mult: real): real {
    (b.high + b.low) / 2.0 - Times(mult, atr)
  }

  function LineOf(c: Cell): real {
    if c.up then c.lower else c.upper
  }

  /** The row after a row with bands. */
  function NextCell(prev: Cell, before: Bar, b: Bar, atr: real, mult: real): Cell {
    var basicUp, basicLow := UpperBasic(b, atr, mult), LowerBasic(b, atr, mult);
    var upper := if basicUp < prev.upper || before.close > prev.upper then basicUp else prev.upper;
    var lower := if basicLow > prev.lower || before.close < prev.lower then basicLow else prev.lower;
    Cell(upper, lower, if prev.up then !(b.close < lower) else b.close > upper)
  }

  function CellAt(bars: seq<Bar>, atr: seq<Option<real>>, mult: real, i: nat): Option<Cell>
    requires i < |bars| == |atr|
  {
    if atr[i].None? then None
    else if i == 0 || CellAt(bars, atr, mult, i - 1).None? then
      Some(Cell(UpperBasic(bars[i], atr[i].value, mult), LowerBasic(bars[i], atr[i].value, mult), true))
    else Some(NextCell(CellAt(bars, atr, mult, i - 1).value, bars[i - 1], bars[i], atr[i].value, mult))
  }

  /** The band loop of the source over four parallel arrays. */
  method Prepare(bars: seq<Bar>, atr: seq<Option<real>>, mult: real)
    returns (line: seq<Option<real>>, direction: seq<Option<real>>)
    requires |bars| == |atr|
    ensures |line| == |direction| == |bars|
    ensures forall i: nat :: i < |bars| ==>
      var c := CellAt(bars, atr, mult, i);
      line[i] == (if c.Some? then Some(LineOf(c.value)) else None)
      && direction[i] == if c.Some? then Some(if c.value.up then 1.0 else -1.0) else None
  {
    hide UpperBasic, LowerBasic, CellAt, Holds, LineOf;
    var n := |bars|;
    var upper := new Option<real>[n](_ => None);
    var lower := new Option<real>[n](_ => None);
    var dir := new Option<real>[n](_ => None);
    var lines := new Option<real>[n](_ => None);
    for i := 0 to n
      invariant forall k: nat :: k < i ==> Holds(CellAt(bars, atr, mult, k), upper[k], lower[k], dir[k], lines[k])
      invariant forall k: nat :: i <= k < n ==> upper[k] == lower[k] == dir[k] == lines[k] == None
    {
      if atr[i].None? {
        MissingRow(bars, atr, mult, i);
        continue;
      }
      var basicUp := UpperBasic(bars[i], atr[i].value, mult);
      var basicLow := LowerBasic(bars[i], atr[i].value, mult);
      if i == 0 || upper[i - 1].None? {
        SeedRow(bars, atr, mult, i, if i == 0 then None else lower[i - 1], if i == 0 then None else dir[i - 1],
                if i == 0 then None else lines[i - 1]);
        upper[i], lower[i], dir[i], lines[i] := Some(basicUp), Some(basicLow), Some(1.0), Some(basicLow);
        continue;
      }
      NextRow(bars, atr, mult, i, upper[i - 1], lower[i - 1], dir[i - 1], lines[i - 1]);
      var u, l, d := upper[i - 1].value, lower[i - 1].value, dir[i - 1].value;
      upper[i] := Some(if basicUp < u || bars[i - 1].close > u then basicUp else u);
      lower[i] := Some(if basicLow > l || bars[i - 1].close < l then basicLow else l);
      if d > 0.0 {
        dir[i] := Some(if bars[i].close < lower[i].value then -1.0 else 1.0);
      } else {
        dir[i] := Some(if bars[i].close > upper[i].value then 1.0 else -1.0);
      }
      lines[i] := if dir[i].value > 0.0 then lower[i] else upper[i];
    }
    line, direction := lines[..], dir[..];
    forall i: nat | i < n
      ensures var c := CellAt(bars, atr, mult, i);
              line[i] == (if c.Some? then Some(LineOf(c.value)) else None)
              && direction[i] == if c.Some? then Some(if c.value.up then 1.0 else -1.0) else None
    {
      ReadRow(bars, atr, mult, i, upper[i], lower[i], dir[i], lines[i]);
    }
  }

  /** The arrays' cells on a row agree with the recurrence. */
  predicate Holds(c: Option<Cell>, upper: Option<real>, lower: Option<real>, dir: Option<real>, line: Option<real>) {
    match c
    case None => upper == lower == dir == line == None
    case Some(cell) =>
      && upper == Some(cell.upper) && lower == Some(cell.lower)
      && dir == Some(if cell.up then 1.0 else -1.0) && line == Some(LineOf(cell))
  }

  lemma MissingRow(bars: seq<Bar>, atr: seq<Option<real>>, mult: real, i: nat)
    requires i < |bars| == |atr| && atr[i].None?
    ensures Holds(CellAt(bars, atr, mult, i), None, None, None, None)
  {
  }

  lemma SeedRow(bars: seq<Bar>, atr: seq<Option<real>>, mult: real, i: nat, l: Option<real>, d: Option<real>,
                ln: Option<real>)
    requires i < |bars| == |atr| && atr[i].Some?
    requires i > 0 ==> Holds(CellAt(bars, atr, mult, i - 1), None, l, d, ln)
    ensures var basicLow := LowerBasic(bars[i], atr[i].value, mult);
            Holds(CellAt(bars, atr, mult, i), Some(UpperBasic(bars[i], atr[i].value, mult)), Some(basicLow), Some(1.0),
                  Some(basicLow))
  {
    hide UpperBasic, LowerBasic;
  }

  lemma NextRow(bars: seq<Bar>, atr: seq<Option<real>>, mult: real, i: nat, u: Option<real>, l: Option<real>,
                d: Option<real>, ln: Option<real>)
    requires 0 < i < |bars| == |atr| && atr[i].Some? && u.Some?
    requires Holds(CellAt(bars, atr, mult, i - 1), u, l, d, ln)
    ensures l.Some? && d.Some?
    ensures var basicUp, basicLow := UpperBasic(bars[i], atr[i].value, mult), LowerBasic(bars[i], atr[i].value, mult);
            var newUp := if basicUp < u.value || bars[i - 1].close > u.value then basicUp else u.value;
            var newLow := if basicLow > l.value || bars[i - 1].close < l.value then basicLow else l.value;
            var up := if d.value > 0.0 then !(bars[i].close < newLow) else bars[i].close > newUp;
            Holds(CellAt(bars, atr, mult, i), Some(newUp), Some(newLow), Some(if up then 1.0 else -1.0),
                  Some(if up then newLow else newUp))
  {
    hide UpperBasic, LowerBasic;
  }

  lemma ReadRow(bars: seq<Bar>, atr: seq<Option<real>>, mult: real, i: nat, u: Option<real>, l: Option<real>,
                d: Option<real>, ln: Option<real>)
    requires i < |bars| == |atr| && Holds(CellAt(bars, atr, mult, i), u, l, d, ln)
    ensures var c := CellAt(bars, atr, mult, i);
            ln == (if c.Some? then Some(LineOf(c.value)) else None)
            && d == if c.Some? then Some(if c.value.up then 1.0 else -1.0) else None
  {
    hide CellAt, LineOf;
  }

  /** Truncation invariance: a row depends on no later one. */
  lemma {:induction false} PrefixInvariant(bars: seq<Bar>, atr: seq<Option<real>>, mult: real, n: nat, i: nat)
    requires i < n <= |bars| == |atr|
    ensures CellAt(bars[..n], atr[..n], mult, i) == CellAt(bars, atr, mult, i)
  {
    hide NextCell, UpperBasic, LowerBasic;
    if i > 0 {
      PrefixInvariant(bars, atr, mult, n, i - 1);
    }
  }

  // ---------- runs ----------

  ghost predicate Trend(bars: seq<Bar>, atr: seq<Option<real>>, mult: real, i: nat, up: bool)
    requires i < |bars| == |atr|
  {
    CellAt(bars, atr, mult, i).Some? && CellAt(bars, atr, mult, i).value.up == up
  }

  function LineAt(bars: seq<Bar>, atr: seq<Option<real>>, mult: real, i: nat): real
    requires i < |bars| == |atr| && CellAt(bars, atr, mult, i).Some?
  {
    LineOf(CellAt(bars, atr, mult, i).value)
  }

  /** Every bar of a run but its first closes on the trend's side of its line. */
  lemma ClosesOnTrendSide(bars: seq<Bar>, atr: seq<Option<real>>, mult: real, i: nat, up: bool)
    requires 0 < i < |bars| == |atr|
    requires Trend(bars, atr, mult, i - 1, up) && Trend(bars, atr, mult, i, up)
    ensures if up then bars[i].close >= LineAt(bars, atr, mult, i) else bars[i].close <= LineAt(bars, atr, mult, i)
  {
    hide UpperBasic, LowerBasic;
  }

  /** When a run goes on, its line moves against the trend exactly when the previous
      close was already past the line and the new basic band is farther still. */
  lemma LineRetreatsExactly(bars: seq<Bar>, atr: seq<Option<real>>, mult: real, i: nat, up: bool)
    requires 0 < i < |bars| == |atr|
    requires Trend(bars, atr, mult, i - 1, up) && Trend(bars, atr, mult, i, up)
    ensures var was, now := LineAt(bars, atr, mult, i - 1), LineAt(bars, atr, mult, i);
            if up then
              now < was <==> bars[i - 1].close < was && LowerBasic(bars[i], atr[i].value, mult) < was
            else
              now > was <==> bars[i - 1].close > was && UpperBasic(bars[i], atr[i].value, mult) > was
  {
    hide UpperBasic, LowerBasic;
  }

  /** Once the trend has held for two consecutive bars its line only tightens. */
  lemma LineTightens(bars: seq<Bar>, atr: seq<Option<real>>, mult: real, i: nat, up: bool)
    requires 2 <= i < |bars| == |atr|
    requires Trend(bars, atr, mult, i - 2, up) && Trend(bars, atr, mult, i - 1, up) && Trend(bars, atr, mult, i, up)
    ensures if up then LineAt(bars, atr, mult, i) >= LineAt(bars, atr, mult, i - 1)
            else LineAt(bars, atr, mult, i) <= LineAt(bars, atr, mult, i - 1)
  {
    hide Trend, LineAt, UpperBasic, LowerBasic, CellAt;
    ClosesOnTrendSide(bars, atr, mult, i - 1, up);
    LineRetreatsExactly(bars, atr, mult, i, up);
  }

  /** Over a whole run: from its second bar on, the line never moves away. */
  lemma {:induction false} LineTightensOverRun(bars: seq<Bar>, atr: seq<Option<real>>, mult: real, a: nat, i: nat,
                                               j: nat, up: bool)
    requires a < i <= j < |bars| == |atr|
    requires forall k: nat :: a <= k <= j ==> Trend(bars, atr, mult, k, up)
    ensures Trend(bars, atr, mult, i, up) && Trend(bars, atr, mult, j, up)
    ensures if up then LineAt(bars, atr, mult, j) >= LineAt(bars, atr, mult, i)
            else LineAt(bars, atr, mult, j) <= LineAt(bars, atr, mult, i)
    decreases j
  {
    hide LineAt, CellAt;
    if i < j {
      LineTightensOverRun(bars, atr, mult, a, i, j - 1, up);
      assert Trend(bars, atr, mult, j - 2, up);
      LineTightens(bars, atr, mult, j, up);
    }
  }

  /** Row i is the first of the table with bands: the trend is set up without a look
      at the close. */
  ghost predicate Seeded(bars: seq<Bar>, atr: seq<Option<real>>, mult: real, i: nat)
    requires i < |bars| == |atr|
  {
    atr[i].Some? && (i == 0 || CellAt(bars, atr, mult, i - 1).None?)
  }

  /** After the seed row the line retreats exactly when the seed row closed below its
      own basic band and the next basic band is lower still. */
  lemma SeedRetreatsExactly(bars: seq<Bar>, atr: seq<Option<real>>, mult: real, i: nat)
    requires 0 < i < |bars| == |atr| && Seeded(bars, atr, mult, i - 1) && Trend(bars, atr, mult, i, true)
    ensures Trend(bars, atr, mult, i - 1, true)
    ensures LineAt(bars, atr, mult, i) < LineAt(bars, atr, mult, i - 1)
            <==> && bars[i - 1].close < LowerBasic(bars[i - 1], atr[i - 1].value, mult)
                 && LowerBasic(bars[i], atr[i].value, mult) < LowerBasic(bars[i - 1], atr[i - 1].value, mult)
  {
    hide UpperBasic, LowerBasic, NextCell;
    LineRetreatsExactly(bars, atr, mult, i, true);
  }

  /** After a flip the line retreats exactly when the bands had crossed around the flip
      row's close and the next basic band is farther still. */
  lemma FlipRetreatsExactly(bars: seq<Bar>, atr: seq<Option<real>>, mult: real, i: nat, up: bool)
    requires 2 <= i < |bars| == |atr|
    requires Trend(bars, atr, mult, i - 2, !up) && Trend(bars, atr, mult, i - 1, up) && Trend(bars, atr, mult, i, up)
    ensures var was, now := LineAt(bars, atr, mult, i - 1), LineAt(bars, atr, mult, i);
            var flip := CellAt(bars, atr, mult, i - 1).value;
            (if up then now < was else now > was)
            <==> && flip.upper < bars[i - 1].close < flip.lower
                 && (if up then LowerBasic(bars[i], atr[i].value, mult) < was
                     else UpperBasic(bars[i], atr[i].value, mult) > was)
  {
    hide UpperBasic, LowerBasic;
    LineRetreatsExactly(bars, atr, mult, i, up);
    FlipPasses(bars, atr, mult, i - 1, up);
    hide CellAt;
  }

  /** Each band tightens to its new basic value, or starts over from it after a close past
      the band; the trend turns exactly when the close passes the band against it. */
  lemma BandsExactly(bars: seq<Bar>, atr: seq<Option<real>>, mult: real, i: nat)
    requires 0 < i < |bars| == |atr| && atr[i].Some? && CellAt(bars, atr, mult, i - 1).Some?
    ensures CellAt(bars, atr, mult, i).Some?
    ensures var was, now := CellAt(bars, atr, mult, i - 1).value, CellAt(bars, atr, mult, i).value;
            var mid, width, before := (bars[i].high + bars[i].low) / 2.0, mult * atr[i].value, bars[i - 1].close;
            && now.upper == (if before > was.upper then mid + width else Min(was.upper, mid + width))
            && now.lower == (if before < was.lower then mid - width else Max(was.lower, mid - width))
            && (now.up <==> if was.up then bars[i].close >= now.lower else bars[i].close > now.upper)
  {
  }

  /** A flip row closes beyond the band it was held by. */
  lemma FlipPasses(bars: seq<Bar>, atr: seq<Option<real>>, mult: real, i: nat, up: bool)
    requires 0 < i < |bars| == |atr| && Trend(bars, atr, mult, i - 1, !up) && Trend(bars, atr, mult, i, up)
    ensures var flip := CellAt(bars, atr, mult, i).value;
            if up then bars[i].close > flip.upper else bars[i].close < flip.lower
  {
    hide UpperBasic, LowerBasic;
  }

  // ---------- both exceptions occur, with the default window and multiple ----------

  function Quiet(k: int): Bar {
    Bar(k, 100.0, 100.5, 99.5, 100.0, 1.0)
  }

  lemma SumOfThree(a: real, b: real, c: real)
    ensures Sum([a, b, c]) == a + b + c
  {
    var s := [a, b, c];
    assert s[..2] == [a, b] && s[..2][..1] == [a] && s[..2][..1][..0] == [];
    assert Sum(s) == Sum(s[..2]) + c;
    assert Sum(s[..2]) == Sum(s[..2][..1]) + b;
    assert Sum(s[..2][..1]) == Sum(s[..2][..1][..0]) + a;
  }

  /** The ten-bar ATR of a row whose window is quiet but for its last three bars. */
  lemma QuietAtr(bars: seq<Bar>, i: nat)
    requires 10 <= i < |bars| && forall j: nat :: i - 10 < j <= i - 3 ==> TrueRange(bars, j) == 1.0
    ensures AtrAt(bars, 10, i)
         == Some((7.0 + TrueRange(bars, i - 2) + TrueRange(bars, i - 1) + TrueRange(bars, i)) / 10.0)
  {
    hide TrueRange;
    var s := TrueRanges(bars, i - 9, i + 1);
    var quiet, rest := s[..7], [TrueRange(bars, i - 2), TrueRange(bars, i - 1), TrueRange(bars, i)];
    assert s == quiet + rest;
    SumAppend(quiet, rest);
    SumOfEqual(quiet, 1.0);
    SumOfThree(TrueRange(bars, i - 2), TrueRange(bars, i - 1), TrueRange(bars, i));
  }

  function SeedTape(): (bars: seq<Bar>)
    ensures |bars| == 12 && forall k :: 0 <= k < 10 ==> bars[k] == Quiet(k)
    ensures bars[10] == Bar(10, 100.0, 110.0, 90.0, 91.0, 1.0) && bars[11] == Bar(11, 91.0, 92.0, 90.0, 91.0, 1.0)
  {
    seq(10, k => Quiet(k)) + [Bar(10, 100.0, 110.0, 90.0, 91.0, 1.0), Bar(11, 91.0, 92.0, 90.0, 91.0, 1.0)]
  }

  /** A wide seed bar that closes near its low: the line starts above the close, without
      any crossing of the bands, and drops on the next row. */
  lemma SeedCanRetreat()
    ensures var bars, atr := SeedTape(), Columns.Atr(SeedTape(), 10);
            && ValidTape(bars) && Seeded(bars, atr, 3.0, 10)
            && CellAt(bars, atr, 3.0, 10) == Some(Cell(108.7, 91.3, true))
            && Trend(bars, atr, 3.0, 11, true)
            && LineAt(bars, atr, 3.0, 11) < LineAt(bars, atr, 3.0, 10)
  {
    hide SeedTape;
    var bars, atr := SeedTape(), Columns.Atr(SeedTape(), 10);
    QuietAtr(bars, 10);
    QuietAtr(bars, 11);
    assert atr[9].None? && atr[10] == Some(2.9) && atr[11] == Some(3.0);
    hide AtrAt, TrueRange;
    assert CellAt(bars, atr, 3.0, 9).None?;
    assert CellAt(bars, atr, 3.0, 10) == Some(Cell(108.7, 91.3, true));
    assert CellAt(bars, atr, 3.0, 11).value.lower == 82.0;
  }

  function FlipTape(): (bars: seq<Bar>)
    ensures |bars| == 14 && forall k :: 0 <= k < 11 ==> bars[k] == Quiet(k)
    ensures bars[11] == Bar(11, 100.0, 100.0, 50.0, 50.0, 1.0) && bars[12] == Bar(12, 95.0, 300.0, 95.0, 96.0, 1.0)
    ensures bars[13] == Bar(13, 96.0, 97.0, 95.0, 96.0, 1.0)
  {
    seq(11, k => Quiet(k))
    + [Bar(11, 100.0, 100.0, 50.0, 50.0, 1.0), Bar(12, 95.0, 300.0, 95.0, 96.0, 1.0),
       Bar(13, 96.0, 97.0, 95.0, 96.0, 1.0)]
  }

  lemma FlipAtrs()
    ensures var bars, atr := FlipTape(), Columns.Atr(FlipTape(), 10);
            && ValidTape(bars) && atr[9].None? && atr[10] == Some(1.0) && atr[11] == Some(5.9)
            && atr[12] == Some(30.8) && atr[13] == Some(30.9)
  {
    hide FlipTape, AtrAt;
    var bars := FlipTape();
    FlipRanges(bars);
    hide TrueRange;
    QuietAtr(bars, 10);
    QuietAtr(bars, 11);
    QuietAtr(bars, 12);
    QuietAtr(bars, 13);
    NoAtrYet(bars, 9);
  }

  lemma NoAtrYet(bars: seq<Bar>, i: nat)
    requires i < 10 && i < |bars|
    ensures AtrAt(bars, 10, i).None?
  {
  }

  lemma FlipRanges(bars: seq<Bar>)
    requires bars == FlipTape()
    ensures forall j: nat :: 1 <= j <= 10 ==> TrueRange(bars, j) == 1.0
    ensures TrueRange(bars, 11) == 50.0 && TrueRange(bars, 12) == 250.0 && TrueRange(bars, 13) == 2.0
  {
    hide FlipTape;
  }

  /** A crash and a spike: the spike flips the trend up with its close between crossed
      bands, and the line drops on the next row. */
  lemma FlipCanRetreat()
    ensures var bars, atr := FlipTape(), Columns.Atr(FlipTape(), 10);
            && ValidTape(bars)
            && Trend(bars, atr, 3.0, 11, false) && Trend(bars, atr, 3.0, 12, true) && Trend(bars, atr, 3.0, 13, true)
            && CellAt(bars, atr, 3.0, 12).value.upper < CellAt(bars, atr, 3.0, 12).value.lower
            && LineAt(bars, atr, 3.0, 13) < LineAt(bars, atr, 3.0, 12)
  {
    FlipAtrs();
    hide FlipTape, AtrAt;
    var bars, atr := FlipTape(), Columns.Atr(FlipTape(), 10);
    assert CellAt(bars, atr, 3.0, 9).None?;
    assert CellAt(bars, atr, 3.0, 10) == Some(Cell(103.0, 97.0, true));
    assert CellAt(bars, atr, 3.0, 11) == Some(Cell(92.7, 97.0, false));
    assert CellAt(bars, atr, 3.0, 12) == Some(Cell(92.7, 105.1, true));
    assert CellAt(bars, atr, 3.0, 13).value.lower == 3.3;
  }

  // ---------- signals ----------

  function Signal(bars: seq<Bar>, atr: seq<Option<real>>, c: Config, i: nat): Option<Intent>
    requires i < |bars| == |atr|
  {
    var now := CellAt(bars, atr, c.mult, i);
    var before := if i == 0 then None else CellAt(bars, atr, c.mult, i - 1);
    if now.None? || before.None? || atr[i].None? || atr[i].value <= 0.0 then None
    else
      var pad := Times(c.minStopAtr, atr[i].value);
      if now.value.up && !before.value.up then
        var stop := Min(LineOf(now.value), bars[i].close - pad);
        if bars[i].close - stop > 0.0 then Some(Intent(Long, stop, None)) else None
      else if !now.value.up && before.value.up then
        var stop := Max(LineOf(now.value), bars[i].close + pad);
        if stop - bars[i].close > 0.0 then Some(Intent(Short, stop, None)) else None
      else None
  }

  /** The first row a runner asks about. */
  function WarmupBars(window: nat): nat {
    window + 3
  }

  /** The sides of the signals on rows from..n, in order. */
  function Sides(bars: seq<Bar>, atr: seq<Option<real>>, c: Config, from: nat, n: nat): seq<Side>
    requires n <= |bars| == |atr|
  {
    if n <= from then []
    else
      var s := Signal(bars, atr, c, n - 1);
      Sides(bars, atr, c, from, n - 1) + if s.Some? then [s.value.side] else []
  }

  /** Missing up to row w, present and positive from it on. */
  ghost predicate WarmFrom(atr: seq<Option<real>>, w: nat) {
    forall i :: 0 <= i < |atr| ==> if i < w then atr[i].None? else atr[i].Some? && atr[i].value > 0.0
  }

  /** Every flip is an entry, and every entry's stop is strictly beyond its close, by
      at least the minimum distance. */
  lemma FlipsAreEntries(bars: seq<Bar>, atr: seq<Option<real>>, c: Config, i: nat)
    requires 0 < i < |bars| == |atr| && c.minStopAtr > 0.0
    requires atr[i].Some? && atr[i].value > 0.0 && CellAt(bars, atr, c.mult, i - 1).Some?
    ensures var was, now := CellAt(bars, atr, c.mult, i - 1).value.up, CellAt(bars, atr, c.mult, i).value.up;
            var s := Signal(bars, atr, c, i);
            && (s.Some? <==> was != now)
            && (s.Some? ==>
                  && s.value.side == (if now then Long else Short)
                  && var pad := Times(c.minStopAtr, atr[i].value);
                  pad > 0.0
                  && (if now then s.value.stop <= bars[i].close - pad else s.value.stop >= bars[i].close + pad)
                  && var line := LineOf(CellAt(bars, atr, c.mult, i).value);
                  && (if now then s.value.stop <= line else s.value.stop >= line)
                  && (s.value.stop == line || s.value.stop == if now then bars[i].close - pad else bars[i].close + pad))
  {
    hide NextCell, Times, UpperBasic, LowerBasic;
    TimesSign(c.minStopAtr, atr[i].value);
  }

  lemma {:induction false} PresentWhenWarm(bars: seq<Bar>, atr: seq<Option<real>>, mult: real, w: nat, i: nat)
    requires i < |bars| == |atr| && WarmFrom(atr, w)
    ensures CellAt(bars, atr, mult, i).Some? <==> i >= w
    ensures i == w ==> CellAt(bars, atr, mult, i).value.up
  {
    if i > 0 {
      PresentWhenWarm(bars, atr, mult, w, i - 1);
    }
  }

  /** Each side is the opposite of the one before, and the first is the given one. */
  ghost predicate Alternating(s: seq<Side>, first: Side) {
    forall k :: 0 <= k < |s| ==> s[k] == if k % 2 == 0 then first else Opposite(first)
  }

  function Against(up: bool): Side {
    if up then Short else Long
  }

  /** From any row after the seed row on, the entries strictly alternate; the first goes
      against the trend of the row before, and their count tells the current trend. */
  lemma {:induction false} EntriesAlternate(bars: seq<Bar>, atr: seq<Option<real>>, c: Config, w: nat, from: nat,
                                            n: nat)
    requires w < from <= n <= |bars| == |atr| && WarmFrom(atr, w) && c.minStopAtr > 0.0
    ensures CellAt(bars, atr, c.mult, from - 1).Some? && CellAt(bars, atr, c.mult, n - 1).Some?
    ensures var was, now := CellAt(bars, atr, c.mult, from - 1).value.up, CellAt(bars, atr, c.mult, n - 1).value.up;
            && Alternating(Sides(bars, atr, c, from, n), Against(was))
            && (now == was <==> |Sides(bars, atr, c, from, n)| % 2 == 0)
    decreases n
  {
    hide CellAt, LineOf, Times;
    PresentWhenWarm(bars, atr, c.mult, w, from - 1);
    PresentWhenWarm(bars, atr, c.mult, w, n - 1);
    if from < n {
      EntriesAlternate(bars, atr, c, w, from, n - 1);
      FlipsAreEntries(bars, atr, c, n - 1);
    }
  }

  /** Counted from the first row on they alternate as well, starting with a short: the
      trend is seeded up, and nothing is signalled up to the seed row. */
  lemma {:induction false} SeededEntriesStartShort(bars: seq<Bar>, atr: seq<Option<real>>, c: Config, w: nat, from: nat,
                                                   n: nat)
    requires from <= w + 1 && n <= |bars| == |atr| && WarmFrom(atr, w) && c.minStopAtr > 0.0
    ensures Sides(bars, atr, c, from, n) == Sides(bars, atr, c, w + 1, n)
    ensures Alternating(Sides(bars, atr, c, from, n), Short)
    decreases n
  {
    hide CellAt, LineOf, Times;
    if n > w + 1 {
      SeededEntriesStartShort(bars, atr, c, w, from, n - 1);
      PresentWhenWarm(bars, atr, c.mult, w, w);
      EntriesAlternate(bars, atr, c, w, w + 1, n);
    } else if n > from {
      SeededEntriesStartShort(bars, atr, c, w, from, n - 1);
      if n > 1 {
        PresentWhenWarm(bars, atr, c.mult, w, n - 2);
      }
    }
  }

  /** With the candidate's own ATR column and bars of positive range. */
  lemma EntriesAlternateOnTapes(bars: seq<Bar>, window: nat, c: Config, from: nat)
    requires window >= 1 && c.minStopAtr > 0.0 && window < from <= |bars|
    requires forall k :: 0 <= k < |bars| ==> bars[k].low < bars[k].high
    ensures var atr := Atr(bars, window);
            var before := CellAt(bars, atr, c.mult, from - 1);
            && before.Some? && Alternating(Sides(bars, atr, c, from, |bars|), Against(before.value.up))
            && (from == window + 1 ==> before.value.up)
  {
    hide AtrAt, Sides, Alternating, CellAt;
    var atr := Atr(bars, window);
    forall i | 0 <= i < |atr| ensures if i < window then atr[i].None? else atr[i].Some? && atr[i].value > 0.0 {
      AtrWarm(bars, window, i);
    }
    EntriesAlternate(bars, atr, c, window, from, |bars|);
    PresentWhenWarm(bars, atr, c.mult, window, from - 1);
  }

  lemma AtrWarm(bars: seq<Bar>, window: nat, i: nat)
    requires window >= 1 && i < |bars|
    requires forall k :: 0 <= k < |bars| ==> bars[k].low < bars[k].high
    ensures if i < window then AtrAt(bars, window, i).None?
            else AtrAt(bars, window, i).Some? && AtrAt(bars, window, i).value > 0.0
  {
    if i >= window {
      AtrPositive(bars, window, i);
    }
  }

  function LateTape(): (bars: seq<Bar>)
    ensures |bars| == 15 && forall k :: 0 <= k < 11 ==> bars[k] == Quiet(k)
    ensures bars[11] == Bar(11, 100.0, 100.0, 50.0, 50.0, 1.0) && bars[12] == Bar(12, 50.0, 50.5, 49.5, 50.0, 1.0)
    ensures bars[13] == Bar(13, 50.0, 200.0, 50.0, 199.0, 1.0) && bars[14] == Bar(14, 199.0, 200.0, 198.0, 199.0, 1.0)
  {
    seq(11, k => Quiet(k))
    + [Bar(11, 100.0, 100.0, 50.0, 50.0, 1.0), Bar(12, 50.0, 50.5, 49.5, 50.0, 1.0),
       Bar(13, 50.0, 200.0, 50.0, 199.0, 1.0), Bar(14, 199.0, 200.0, 198.0, 199.0, 1.0)]
  }

  lemma LateAtrs()
    ensures var bars, atr := LateTape(), Columns.Atr(LateTape(), 10);
            && ValidTape(bars) && atr[9].None? && atr[10] == Some(1.0) && atr[11] == Some(5.9)
            && atr[12] == Some(5.9) && atr[13] == Some(20.8)
  {
    hide LateTape, AtrAt;
    var bars := LateTape();
    LateRanges(bars);
    hide TrueRange;
    QuietAtr(bars, 10);
    QuietAtr(bars, 11);
    QuietAtr(bars, 12);
    QuietAtr(bars, 13);
    NoAtrYet(bars, 9);
  }

  lemma LateRanges(bars: seq<Bar>)
    requires bars == LateTape()
    ensures forall j: nat :: 1 <= j <= 10 ==> TrueRange(bars, j) == 1.0
    ensures TrueRange(bars, 11) == 50.0 && TrueRange(bars, 12) == 1.0 && TrueRange(bars, 13) == 150.0
  {
    hide LateTape;
  }

  lemma LateCells()
    ensures var bars, atr := LateTape(), Columns.Atr(LateTape(), 10);
            && CellAt(bars, atr, 3.0, 10) == Some(Cell(103.0, 97.0, true))
            && CellAt(bars, atr, 3.0, 11) == Some(Cell(92.7, 97.0, false))
            && CellAt(bars, atr, 3.0, 12) == Some(Cell(67.7, 32.3, false))
            && CellAt(bars, atr, 3.0, 13) == Some(Cell(67.7, 62.6, true))
  {
    LateAtrs();
    hide LateTape, AtrAt;
    assert CellAt(LateTape(), Columns.Atr(LateTape(), 10), 3.0, 9).None?;
  }

  /** The tape falls on row 11 and rises on row 13. */
  lemma LateSignals()
    ensures var bars, atr, c := LateTape(), Columns.Atr(LateTape(), 10), Config(3.0, 0.25);
            && Sides(bars, atr, c, 11, 14) == [Short, Long] && Sides(bars, atr, c, 13, 14) == [Long]
  {
    LateAtrs();
    LateCells();
    hide LateTape, AtrAt, CellAt, Signal;
    var bars, atr, c := LateTape(), Columns.Atr(LateTape(), 10), Config(3.0, 0.25);
    FlipsAreEntries(bars, atr, c, 11);
    FlipsAreEntries(bars, atr, c, 12);
    FlipsAreEntries(bars, atr, c, 13);
    assert Sides(bars, atr, c, 11, 12) == [Short];
    assert Sides(bars, atr, c, 11, 13) == [Short];
    assert Sides(bars, atr, c, 13, 13) == [];
  }

  /** The first entry a runner sees can be a long, because the flips on the two rows
      after the seed row are never asked about. */
  lemma FirstEntryCanBeLong()
    ensures var bars, atr, c := LateTape(), Columns.Atr(LateTape(), 10), Config(3.0, 0.25);
            && ValidTape(bars)
            && Sides(bars, atr, c, WarmupBars(10), 14) == [Long]
            && Sides(bars, atr, c, 0, 14) == [Short, Long]
  {
    LateAtrs();
    LateSignals();
    hide LateTape, AtrAt, Sides;
    var bars, atr := LateTape(), Columns.Atr(LateTape(), 10);
    forall i | 0 <= i < |atr| ensures if i < 10 then atr[i].None? else atr[i].Some? && atr[i].value > 0.0 {
      AtrWarm(bars, 10, i);
    }
    SeededEntriesStartShort(bars, atr, Config(3.0, 0.25), 10, 0, 14);
  }
}
