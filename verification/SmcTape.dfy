/** The structure-breakout entries in terms of the bars alone. */
module SmcTape {
  import opened Common
  import Columns
  import Smc = SmcBreakout

  /** Bar k - wing is an extreme of the window of wing bars on either side, known at k. */
  ghost predicate Swings(side: Side, bars: seq<Bar>, wing: nat, k: nat)
    requires k < |bars|
  {
    && k >= 2 * wing
    && forall m :: k - 2 * wing <= m <= k ==>
         if side == Long then bars[m].high <= bars[k - wing].high else bars[m].low >= bars[k - wing].low
  }

  function LevelOf(side: Side, bars: seq<Bar>, wing: nat, k: nat): real
    requires 2 * wing <= k < |bars|
  {
    if side == Long then bars[k - wing].high else bars[k - wing].low
  }

  lemma ExtremeIs(s: seq<real>, j: nat)
    requires j < |s|
    ensures MaxOf(s) == s[j] <==> forall m :: 0 <= m < |s| ==> s[m] <= s[j]
    ensures MinOf(s) == s[j] <==> forall m :: 0 <= m < |s| ==> s[m] >= s[j]
  {
    var h :| 0 <= h < |s| && s[h] == MaxOf(s);
    var l :| 0 <= l < |s| && s[l] == MinOf(s);
    hide MaxOf, MinOf;
  }

  /** v[at] is the extreme of a window of values. */
  ghost predicate Tops(side: Side, v: seq<real>, from: nat, to: nat, at: nat)
    requires from <= at < to <= |v|
  {
    forall m :: from <= m < to ==> if side == Long then v[m] <= v[at] else v[m] >= v[at]
  }

  lemma WindowExtreme(side: Side, v: seq<real>, from: nat, to: nat, at: nat)
    requires from <= at < to <= |v|
    ensures (if side == Long then MaxOf(v[from..to]) else MinOf(v[from..to])) == v[at] <==> Tops(side, v, from, to, at)
  {
    hide MaxOf, MinOf;
    var s := v[from..to];
    ExtremeIs(s, at - from);
    if Tops(side, v, from, to, at) {
      assert forall j :: 0 <= j < |s| ==> s[j] == v[from + j];
    }
    forall m | from <= m < to ensures v[m] == s[m - from] {
    }
  }

  lemma ConfirmsExtreme(side: Side, bars: seq<Bar>, wing: nat, k: nat)
    requires 2 * wing <= k < |bars|
    ensures var v := if side == Long then Highs(bars) else Lows(bars);
            var s := v[k - 2 * wing..k + 1];
            Smc.ConfirmsAt(side, bars, wing, k) <==> (if side == Long then MaxOf(s) else MinOf(s)) == v[k - wing]
  {
    hide MaxOf, MinOf;
  }

  lemma SwingsAmong(side: Side, bars: seq<Bar>, wing: nat, k: nat)
    requires 2 * wing <= k < |bars|
    ensures Swings(side, bars, wing, k)
            <==> Tops(side, if side == Long then Highs(bars) else Lows(bars), k - 2 * wing, k + 1, k - wing)
  {
    hide MaxOf, MinOf;
  }

  lemma SwingExactly(side: Side, bars: seq<Bar>, wing: nat, k: nat)
    requires k < |bars|
    ensures Smc.ConfirmsAt(side, bars, wing, k) <==> Swings(side, bars, wing, k)
  {
    hide MaxOf, MinOf, Smc.ConfirmsAt, Swings, Tops;
    if k >= 2 * wing {
      ConfirmsExtreme(side, bars, wing, k);
      SwingsAmong(side, bars, wing, k);
      WindowExtreme(side, if side == Long then Highs(bars) else Lows(bars), k - 2 * wing, k + 1, k - wing);
    } else {
      NoSwingYet(side, bars, wing, k);
    }
  }

  lemma NoSwingYet(side: Side, bars: seq<Bar>, wing: nat, k: nat)
    requires k < |bars| && k < 2 * wing
    ensures !Smc.ConfirmsAt(side, bars, wing, k) && !Swings(side, bars, wing, k)
  {
  }

  /** The latest swing was never closed through since it was confirmed, and this bar does. */
  ghost predicate BreaksLatest(side: Side, bars: seq<Bar>, wing: nat, k: nat, i: nat)
    requires i < |bars|
  {
    && k <= i && Swings(side, bars, wing, k) && (forall m :: k < m <= i ==> !Swings(side, bars, wing, m))
    && (forall m :: k <= m < i ==> if side == Long then bars[m].close <= LevelOf(side, bars, wing, k)
                                   else bars[m].close >= LevelOf(side, bars, wing, k))
    && if side == Long then bars[i].close > LevelOf(side, bars, wing, k)
       else bars[i].close < LevelOf(side, bars, wing, k)
  }

  /** The unit is a third of the whole range from the swing to this bar. */
  ghost predicate Unit(bars: seq<Bar>, from: nat, i: nat, unit: real)
    requires from <= i < |bars|
  {
    && (forall a, b :: from <= a <= i && from <= b <= i ==> bars[a].high - bars[b].low <= 3.0 * unit)
    && exists a, b :: from <= a <= i && from <= b <= i && bars[a].high - bars[b].low == 3.0 * unit
  }

  lemma UnitExactly(bars: seq<Bar>, from: nat, i: nat)
    requires from <= i < |bars|
    ensures Unit(bars, from, i, Smc.StructureDist(bars, i, from))
  {
    hide MaxOf, MinOf;
    var highs, lows := Highs(bars), Lows(bars);
    assert highs[i] == bars[i].high && lows[i] == bars[i].low;
    if from < i {
      var hs, ls := highs[from..i], lows[from..i];
      var h :| 0 <= h < |hs| && hs[h] == MaxOf(hs);
      var l :| 0 <= l < |ls| && ls[l] == MinOf(ls);
      forall m | from <= m < i ensures bars[m].high <= MaxOf(hs) && MinOf(ls) <= bars[m].low {
        assert hs[m - from] == bars[m].high && ls[m - from] == bars[m].low;
      }
      var a, b := if MaxOf(hs) >= bars[i].high then from + h else i, if MinOf(ls) <= bars[i].low then from + l else i;
      assert bars[a].high - bars[b].low == 3.0 * Smc.StructureDist(bars, i, from);
    }
  }

  lemma OneUnit(bars: seq<Bar>, from: nat, i: nat, u: real, v: real)
    requires from <= i < |bars| && Unit(bars, from, i, u) && Unit(bars, from, i, v)
    ensures u == v
  {
  }

  /** The entry: that break, a unit of at least so many average ranges, a stop a unit
      over rr behind the level and a target a unit beyond it. */
  ghost predicate Enters(side: Side, bars: seq<Bar>, i: nat, atr: real, c: Smc.Config, k: nat, unit: real, x: Intent)
    requires i < |bars| && c.rr != 0.0
  {
    && BreaksLatest(side, bars, c.wing, k, i) && Unit(bars, k - c.wing, i, unit) && unit >= c.minDistAtr * atr
    && var level := LevelOf(side, bars, c.wing, k);
    && x.side == side && x.target.Some?
    && if side == Long then
         x.stop == level - unit / c.rr && x.stop < bars[i].close && x.target.value == level + unit
       else
         x.stop == level + unit / c.rr && x.stop > bars[i].close && x.target.value == level - unit
  }

  ghost predicate EntersSomewhere(side: Side, bars: seq<Bar>, i: nat, atr: real, c: Smc.Config, x: Intent)
    requires i < |bars| && c.rr != 0.0
  {
    exists k: nat, unit :: Enters(side, bars, i, atr, c, k, unit, x)
  }

  /** The columns name swing k of the bars. */
  lemma SwingNamed(side: Side, bars: seq<Bar>, wing: nat, i: nat, k: nat)
    requires i < |bars|
    ensures var s := Smc.SwingAt(side, bars, wing, i);
            s.id == Some(k)
            <==> k <= i && Swings(side, bars, wing, k) && forall m :: k < m <= i ==> !Swings(side, bars, wing, m)
    ensures var s := Smc.SwingAt(side, bars, wing, i);
            s.id == Some(k) ==>
              && s.level == Some(LevelOf(side, bars, wing, k)) && s.center == Some(k - wing)
              && (s.priorClose.Some? ==> !Smc.Beyond(side, s.priorClose.value, s.level.value)
                  <==> forall j :: k <= j < i ==> !Smc.Beyond(side, bars[j].close, s.level.value))
              && (s.priorClose.None? ==> k == i)
  {
    hide Smc.SwingAt, Smc.ConfirmsAt, Columns.IdAt, Swings, Smc.Beyond;
    var s, marks := Smc.SwingAt(side, bars, wing, i), Smc.Confirmed(side, bars, wing);
    Smc.SwingNamesOneBar(side, bars, wing, i);
    Smc.SwingId(side, bars, wing, i);
    forall m: nat | m < |bars| ensures marks[m] <==> Swings(side, bars, wing, m) {
      SwingExactly(side, bars, wing, m);
    }
    if k <= i && Swings(side, bars, wing, k) && forall m :: k < m <= i ==> !Swings(side, bars, wing, m) {
      Columns.LatestIsId(marks, k, i);
    }
    if s.id == Some(k) {
      SwingLate(side, bars, wing, k);
    }
  }

  lemma SideExactly(side: Side, bars: seq<Bar>, i: nat, atr: real, c: Smc.Config, x: Intent)
    requires i < |bars| && c.rr != 0.0
    ensures Smc.SideSignal(side, Smc.SwingAt(side, bars, c.wing, i), bars, i, atr, c) == Some(x)
            <==> EntersSomewhere(side, bars, i, atr, c, x)
  {
    hide Smc.SwingAt, Smc.StructureDist, Unit, Swings, Smc.SideSignal, Enters;
    var s := Smc.SwingAt(side, bars, c.wing, i);
    if Smc.SideSignal(side, s, bars, i, atr, c) == Some(x) {
      NamesSwing(side, bars, c.wing, i);
      var k := SignalHasSwing(side, s, bars, i, atr, c);
      SideEnters(side, bars, i, atr, c, k, x);
      assert Enters(side, bars, i, atr, c, k, Smc.StructureDist(bars, i, k - c.wing), x);
    }
    if k: nat, unit :| Enters(side, bars, i, atr, c, k, unit, x) {
      EntersSide(side, bars, i, atr, c, k, unit, x);
    }
  }

  lemma NamesSwing(side: Side, bars: seq<Bar>, wing: nat, i: nat)
    requires i < |bars|
    ensures var s := Smc.SwingAt(side, bars, wing, i); s.level.Some? ==> s.id.Some?
  {
    hide Smc.SwingAt;
    Smc.SwingNamesOneBar(side, bars, wing, i);
  }

  lemma SignalHasSwing(side: Side, s: Smc.Swing, bars: seq<Bar>, i: nat, atr: real, c: Smc.Config) returns (k: nat)
    requires i < |bars| && c.rr != 0.0 && Smc.SideSignal(side, s, bars, i, atr, c).Some?
      && (s.level.Some? ==> s.id.Some?)
    ensures s.id == Some(k)
  {
    k := s.id.value;
  }

  lemma SideEnters(side: Side, bars: seq<Bar>, i: nat, atr: real, c: Smc.Config, k: nat, x: Intent)
    requires i < |bars| && c.rr != 0.0 && Smc.SwingAt(side, bars, c.wing, i).id == Some(k)
    requires Smc.SideSignal(side, Smc.SwingAt(side, bars, c.wing, i), bars, i, atr, c) == Some(x)
    ensures k >= c.wing && Enters(side, bars, i, atr, c, k, Smc.StructureDist(bars, i, k - c.wing), x)
  {
    hide Smc.SwingAt, Smc.StructureDist, Unit, Swings;
    SwingNamed(side, bars, c.wing, i, k);
    SwingLate(side, bars, c.wing, k);
    UnitExactly(bars, k - c.wing, i);
  }

  lemma EntersSide(side: Side, bars: seq<Bar>, i: nat, atr: real, c: Smc.Config, k: nat, unit: real, x: Intent)
    requires i < |bars| && c.rr != 0.0 && Enters(side, bars, i, atr, c, k, unit, x)
    ensures Smc.SideSignal(side, Smc.SwingAt(side, bars, c.wing, i), bars, i, atr, c) == Some(x)
  {
    hide Smc.SwingAt, Smc.StructureDist, Unit, Swings;
    SwingNamed(side, bars, c.wing, i, k);
    SwingLate(side, bars, c.wing, k);
    UnitExactly(bars, k - c.wing, i);
    OneUnit(bars, k - c.wing, i, unit, Smc.StructureDist(bars, i, k - c.wing));
  }

  lemma SwingLate(side: Side, bars: seq<Bar>, wing: nat, k: nat)
    requires k < |bars| && Swings(side, bars, wing, k)
    ensures 2 * wing <= k
  {
  }

  /** On every tape and bar, with a positive range average: a long exactly when the bars
      enter one, and a short when they enter one and no long. */
  lemma SignalExactly(bars: seq<Bar>, atr: seq<Option<real>>, c: Smc.Config, i: nat, x: Intent)
    requires i < |bars| == |atr| && c.rr != 0.0
    ensures Smc.Signal(bars, atr, c, i) == Some(x)
            <==> && atr[i].Some? && atr[i].value > 0.0
                 && (|| EntersSomewhere(Long, bars, i, atr[i].value, c, x)
                     || (EntersSomewhere(Short, bars, i, atr[i].value, c, x)
                         && forall y :: !EntersSomewhere(Long, bars, i, atr[i].value, c, y)))
  {
    hide Smc.SideSignal, Smc.SwingAt, EntersSomewhere;
    if atr[i].Some? {
      forall y
        ensures Smc.SideSignal(Long, Smc.SwingAt(Long, bars, c.wing, i), bars, i, atr[i].value, c) == Some(y)
                <==> EntersSomewhere(Long, bars, i, atr[i].value, c, y)
      {
        SideExactly(Long, bars, i, atr[i].value, c, y);
      }
      SideExactly(Short, bars, i, atr[i].value, c, x);
    }
  }
}
