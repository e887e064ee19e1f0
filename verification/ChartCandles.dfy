/** Chart payloads: symbol names, candle checks and the feed state shown beside
    the chart. */
module ChartCandles {
  import opened Common

  // ---------- symbols ----------

  predicate Alphanumeric(c: char) {
    'A' <= c <= 'Z' || 'a' <= c <= 'z' || '0' <= c <= '9'
  }

  function Upper(c: char): char {
    if 'a' <= c <= 'z' then c - 'a' + 'A' else c
  }

  /** The part before the first colon. */
  function Head(raw: string): string {
    if raw == [] || raw[0] == ':' then [] else [raw[0]] + Head(raw[1..])
  }

  function Strip(raw: string): string {
    if raw == [] then []
    else (if Alphanumeric(raw[0]) then [Upper(raw[0])] else []) + Strip(raw[1..])
  }

  function Canonical(raw: string): string {
    Strip(Head(raw))
  }

  predicate IsCanonical(s: string) {
    forall k :: 0 <= k < |s| ==> 'A' <= s[k] <= 'Z' || '0' <= s[k] <= '9'
  }

  lemma {:induction false} StripIsCanonical(raw: string)
    ensures IsCanonical(Strip(raw))
  {
    if raw != [] {
      StripIsCanonical(raw[1..]);
    }
  }

  lemma {:induction false} CanonicalKept(s: string)
    requires IsCanonical(s)
    ensures Head(s) == s && Strip(s) == s
  {
    if s != [] {
      CanonicalKept(s[1..]);
    }
  }

  /** Canonical names are upper-case letters and digits, and are their own name. */
  lemma CanonicalIdempotent(raw: string)
    ensures IsCanonical(Canonical(raw)) && Canonical(Canonical(raw)) == Canonical(raw)
  {
    StripIsCanonical(Head(raw));
    CanonicalKept(Canonical(raw));
  }

  ghost predicate NoColon(s: string) {
    forall k :: 0 <= k < |s| ==> s[k] != ':'
  }

  lemma {:induction false} HeadStops(a: string, b: string)
    requires NoColon(a)
    ensures Head(a + b) == a + Head(b)
  {
    if a != [] {
      HeadStops(a[1..], b);
      assert (a + b)[1..] == a[1..] + b;
    } else {
      assert a + b == b;
    }
  }

  lemma {:induction false} StripAppends(a: string, b: string)
    ensures Strip(a + b) == Strip(a) + Strip(b)
  {
    if a != [] {
      StripAppends(a[1..], b);
      assert (a + b)[1..] == a[1..] + b;
    } else {
      assert a + b == b;
    }
  }

  /** A name ends at its first colon, is read character by character, and keeps exactly
      its letters, as upper case, and its digits. */
  lemma CanonicalExactly(a: string, b: string, c: char)
    requires NoColon(a) && c != ':'
    ensures Canonical(a + [':'] + b) == Canonical(a)
    ensures Canonical(a + [c]) == Canonical(a) + Canonical([c])
    ensures 'A' <= c <= 'Z' || '0' <= c <= '9' ==> Canonical([c]) == [c]
    ensures 'a' <= c <= 'z' ==> Canonical([c]) == [(c as int - 32) as char]
    ensures !('A' <= c <= 'Z' || 'a' <= c <= 'z' || '0' <= c <= '9') ==> Canonical([c]) == []
  {
    assert a + [':'] + b == a + ([':'] + b) && a + [] == a;
    HeadStops(a, [':'] + b);
    HeadStops(a, []);
    HeadStops(a, [c]);
    StripAppends(a, [c]);
    assert [c][1..] == [];
    assert Head([c]) == [c] + Head([]) == [c] && Head(a + []) == a;
    assert Head(a + [c]) == a + [c];
  }

  // ---------- candles ----------

  /** A number field is None when it is not finite; volume is None when absent. */
  datatype Candle = Candle(
    canonicalLake: bool,
    identityOk: bool,
    time: Option<int>,
    open: Option<real>,
    high: Option<real>,
    low: Option<real>,
    close: Option<real>,
    volume: Option<real>,
    proof: Option<Status>,
    closeTime: Option<int>)

  /** A chart bar; time is in milliseconds. */
  datatype ChartBar = ChartBar(time: int, open: real, high: real, low: real, close: real, volume: Option<real>)

  datatype Signature = Signature(time: int, open: real, high: real, low: real, close: real, volume: real)

  datatype Status = Loading | Closed | Watch | Unverified | Stale | Failed | Empty | Reloading

  datatype CandleError = SourceOrIdentityUnverified | ConflictingDuplicate | OhlcNonfinite

  datatype Bars = Bad(error: CandleError) | Good(bars: seq<ChartBar>)

  predicate Finite(c: Candle) {
    c.time.Some? && c.open.Some? && c.high.Some? && c.low.Some? && c.close.Some?
  }

  function Number(x: Option<real>): real {
    if x.Some? then x.value else 0.0
  }

  /** Read only of finite candles. */
  function ToBar(c: Candle): ChartBar {
    ChartBar(if c.time.Some? then c.time.value * 1000 else 0,
             Number(c.open), Number(c.high), Number(c.low), Number(c.close), c.volume)
  }

  function SignatureOf(b: ChartBar): Signature {
    Signature(b.time, b.open, b.high, b.low, b.close, Number(b.volume))
  }

  predicate Clean(c: Candle) {
    c.canonicalLake && c.identityOk && Finite(c)
  }

  /** All candles verified and finite, and none in conflict with another. */
  ghost predicate Consistent(candles: seq<Candle>) {
    && (forall c :: c in candles ==> Clean(c))
    && (forall c, d :: c in candles && d in candles && ToBar(c).time == ToBar(d).time ==>
          SignatureOf(ToBar(c)) == SignatureOf(ToBar(d)))
  }

  ghost predicate StrictlyIncreasing(bars: seq<ChartBar>) {
    forall j, k :: 0 <= j < k < |bars| ==> bars[j].time < bars[k].time
  }

  ghost predicate FromCandle(b: ChartBar, candles: seq<Candle>) {
    exists c :: c in candles && ToBar(c) == b
  }

  ghost predicate Shown(c: Candle, bars: seq<ChartBar>) {
    exists b :: b in bars && SignatureOf(b) == SignatureOf(ToBar(c))
  }

  /** Each bar is the bar of a candle, and each candle has a bar with its signature. */
  ghost predicate Represents(bars: seq<ChartBar>, candles: seq<Candle>) {
    && (forall b :: b in bars ==> FromCandle(b, candles))
    && (forall c :: c in candles ==> Shown(c, bars))
  }

  /** Put a bar at its place in time order, replacing a bar of the same time. */
  function Place(bars: seq<ChartBar>, b: ChartBar): seq<ChartBar> {
    if bars == [] || b.time < bars[0].time then [b] + bars
    else if b.time == bars[0].time then [b] + bars[1..]
    else [bars[0]] + Place(bars[1..], b)
  }

  function Find(bars: seq<ChartBar>, time: int): (b: Option<ChartBar>)
    ensures b.Some? ==> b.value in bars && b.value.time == time
    ensures b.None? ==> forall k :: 0 <= k < |bars| ==> bars[k].time != time
  {
    if bars == [] then None else if bars[0].time == time then Some(bars[0]) else Find(bars[1..], time)
  }

  lemma {:induction false} PlaceOrders(bars: seq<ChartBar>, b: ChartBar)
    requires StrictlyIncreasing(bars)
    ensures StrictlyIncreasing(Place(bars, b))
    ensures b in Place(bars, b)
    ensures forall x :: x in Place(bars, b) ==> x == b || x in bars
    ensures forall x :: x in bars && x.time != b.time ==> x in Place(bars, b)
  {
    if bars != [] && b.time > bars[0].time {
      var tail := bars[1..];
      PlaceOrders(tail, b);
      assert bars == [bars[0]] + tail;
      PrependIncreasing(bars[0], Place(tail, b));
    }
  }

  lemma PrependIncreasing(b: ChartBar, bars: seq<ChartBar>)
    requires StrictlyIncreasing(bars) && forall x :: x in bars ==> b.time < x.time
    ensures StrictlyIncreasing([b] + bars)
  {
  }

  lemma SameTimeSameBar(bars: seq<ChartBar>, x: ChartBar, y: ChartBar)
    requires StrictlyIncreasing(bars) && x in bars && y in bars && x.time == y.time
    ensures x == y
  {
  }

  function Unique(candles: seq<Candle>): Bars {
    if candles == [] then Good([])
    else
      var before := Unique(candles[..|candles| - 1]);
      var c := candles[|candles| - 1];
      if before.Bad? then before
      else if !c.canonicalLake || !c.identityOk then Bad(SourceOrIdentityUnverified)
      else if !Finite(c) then Bad(OhlcNonfinite)
      else
        var b := ToBar(c);
        var previous := Find(before.bars, b.time);
        if previous.Some? && SignatureOf(previous.value) != SignatureOf(b) then Bad(ConflictingDuplicate)
        else Good(Place(before.bars, b))
  }

  /** The source's way: fill a map by time, then sort its values. order lists the
      map's keys as they were first set. */
  method OrderedUnique(candles: seq<Candle>) returns (r: Bars)
    ensures r == Unique(candles)
  {
    hide Place, Find, SignatureOf, Consistent, Represents;
    var byTime: map<int, ChartBar>, order: seq<int> := map[], [];
    ghost var bars: seq<ChartBar> := [];
    for i := 0 to |candles|
      invariant Unique(candles[..i]) == Good(bars) && StrictlyIncreasing(bars)
      invariant MapOf(byTime, order, bars)
    {
      var c := candles[i];
      assert candles[..i + 1][..i] == candles[..i];
      UniqueStops(candles, i + 1);
      if !c.canonicalLake || !c.identityOk {
        return Bad(SourceOrIdentityUnverified);
      }
      if !Finite(c) {
        return Bad(OhlcNonfinite);
      }
      var b := ToBar(c);
      FindInMap(byTime, order, bars, b.time);
      if b.time in byTime && SignatureOf(byTime[b.time]) != SignatureOf(b) {
        return Bad(ConflictingDuplicate);
      }
      PlaceInMap(byTime, order, bars, b);
      order := if b.time in byTime then order else order + [b.time];
      byTime := byTime[b.time := b];
      bars := Place(bars, b);
    }
    assert candles[..|candles|] == candles;
    var sorted := SortValues(byTime, order);
    SameOrder(sorted, bars);
    r := Good(sorted);
  }

  method SortValues(byTime: map<int, ChartBar>, order: seq<int>) returns (sorted: seq<ChartBar>)
    requires forall t :: t in byTime <==> t in order
    requires forall t :: t in byTime ==> byTime[t].time == t
    ensures StrictlyIncreasing(sorted)
    ensures forall x :: x in sorted <==> x.time in byTime && byTime[x.time] == x
  {
    hide Place;
    sorted := [];
    for k := 0 to |order|
      invariant StrictlyIncreasing(sorted)
      invariant forall x :: x in sorted <==> x.time in order[..k] && x.time in byTime && x == byTime[x.time]
    {
      var time := order[k];
      assert time in order;
      var b := byTime[time];
      PlaceOrders(sorted, b);
      assert order[..k + 1] == order[..k] + [order[k]];
      sorted := Place(sorted, b);
      assert b in sorted;
      forall x | x in sorted && x.time == b.time ensures x == b {
        SameTimeSameBar(sorted, x, b);
      }
    }
  }

  /** The map holds exactly the bars, under their times. */
  ghost predicate MapOf(byTime: map<int, ChartBar>, order: seq<int>, bars: seq<ChartBar>) {
    && (forall t :: t in byTime <==> t in order)
    && (forall t :: t in byTime ==> byTime[t].time == t)
    && (forall x :: x in bars <==> x.time in byTime && byTime[x.time] == x)
  }

  lemma FindInMap(byTime: map<int, ChartBar>, order: seq<int>, bars: seq<ChartBar>, time: int)
    requires MapOf(byTime, order, bars)
    ensures Find(bars, time) == if time in byTime then Some(byTime[time]) else None
  {
    if time in byTime {
      assert byTime[time] in bars;
    }
  }

  lemma PlaceInMap(byTime: map<int, ChartBar>, order: seq<int>, bars: seq<ChartBar>, b: ChartBar)
    requires MapOf(byTime, order, bars) && StrictlyIncreasing(bars)
    ensures StrictlyIncreasing(Place(bars, b))
    ensures MapOf(byTime[b.time := b], if b.time in byTime then order else order + [b.time], Place(bars, b))
  {
    PlaceOrders(bars, b);
    hide Place;
    forall x | x in Place(bars, b) && x.time == b.time ensures x == b {
      SameTimeSameBar(Place(bars, b), x, b);
    }
  }

  lemma {:induction false} SameOrder(a: seq<ChartBar>, b: seq<ChartBar>)
    requires StrictlyIncreasing(a) && StrictlyIncreasing(b) && forall x :: x in a <==> x in b
    ensures a == b
  {
    if a == [] {
      assert forall k :: 0 <= k < |b| ==> b[k] in a;
    } else {
      assert a[0] in b && b != [] && b[0] in a;
      assert a[0] == b[0];
      forall x ensures x in a[1..] <==> x in b[1..] {
        assert x in a <==> x == a[0] || x in a[1..];
        assert x in b <==> x == b[0] || x in b[1..];
      }
      SameOrder(a[1..], b[1..]);
    }
  }

  lemma {:induction false} UniqueStops(candles: seq<Candle>, n: nat)
    requires n <= |candles|
    ensures Unique(candles[..n]).Bad? ==> Unique(candles) == Unique(candles[..n])
    decreases |candles|
  {
    hide Place, Find, SignatureOf;
    if n < |candles| {
      var init := candles[..|candles| - 1];
      assert init[..n] == candles[..n];
      UniqueStops(init, n);
    } else {
      assert candles[..n] == candles;
    }
  }

  /** The candles are accepted exactly when they are consistent; the bars are then
      in strict time order and represent every candle. */
  lemma {:induction false} UniqueExactly(candles: seq<Candle>)
    ensures Unique(candles).Good? <==> Consistent(candles)
    ensures Unique(candles).Good? ==>
      StrictlyIncreasing(Unique(candles).bars) && Represents(Unique(candles).bars, candles)
  {
    if candles != [] {
      hide Place, Find, SignatureOf, Consistent, Represents, StrictlyIncreasing;
      var init, c := candles[..|candles| - 1], candles[|candles| - 1];
      assert init + [c] == candles;
      UniqueExactly(init);
      var before := Unique(init);
      if before.Good? && Clean(c) {
        UniqueAdds(init, c, before.bars);
      } else if Consistent(candles) {
        ConsistentPrefix(init, c);
      }
    } else {
      NothingConsistent();
    }
  }

  /** An accepted page shows every candle: in milliseconds, with its prices, and with its
      volume or none for zero. */
  lemma CandlesShown(candles: seq<Candle>, c: Candle)
    requires Unique(candles).Good? && c in candles
    ensures c.canonicalLake && c.identityOk
    ensures c.time.Some? && c.open.Some? && c.high.Some? && c.low.Some? && c.close.Some?
    ensures exists b :: b in Unique(candles).bars
              && b.time == 1000 * c.time.value && b.open == c.open.value && b.high == c.high.value
              && b.low == c.low.value && b.close == c.close.value && Number(b.volume) == Number(c.volume)
  {
    hide Unique, StrictlyIncreasing;
    UniqueExactly(candles);
    assert Shown(c, Unique(candles).bars);
    var b :| b in Unique(candles).bars && SignatureOf(b) == SignatureOf(ToBar(c));
  }

  lemma NothingConsistent()
    ensures Consistent([]) && StrictlyIncreasing([]) && Represents([], [])
  {
  }

  lemma UniqueAdds(init: seq<Candle>, c: Candle, bars: seq<ChartBar>)
    requires Consistent(init) && StrictlyIncreasing(bars) && Represents(bars, init) && Clean(c)
    ensures var b := ToBar(c);
            var previous := Find(bars, b.time);
            if previous.Some? && SignatureOf(previous.value) != SignatureOf(b) then !Consistent(init + [c])
            else Consistent(init + [c]) && StrictlyIncreasing(Place(bars, b)) && Represents(Place(bars, b), init + [c])
  {
    hide Place, SignatureOf, Find, ToBar, Consistent, Represents, StrictlyIncreasing;
    var b := ToBar(c);
    var previous := Find(bars, b.time);
    if previous.Some? && SignatureOf(previous.value) != SignatureOf(b) {
      Conflict(init, c, bars, previous.value);
    } else {
      NoConflict(init, c, bars);
      PlaceOrders(bars, b);
      PlaceRepresents(init, c, bars);
    }
  }

  lemma Conflict(init: seq<Candle>, c: Candle, bars: seq<ChartBar>, previous: ChartBar)
    requires Represents(bars, init) && previous in bars && previous.time == ToBar(c).time
    requires SignatureOf(previous) != SignatureOf(ToBar(c))
    ensures !Consistent(init + [c])
  {
    hide SignatureOf, ToBar, Clean;
    assert FromCandle(previous, init);
    var d :| d in init && ToBar(d) == previous;
    assert d in init + [c] && c in init + [c];
  }

  lemma NoConflict(init: seq<Candle>, c: Candle, bars: seq<ChartBar>)
    requires Consistent(init) && StrictlyIncreasing(bars) && Represents(bars, init) && Clean(c)
    requires var p := Find(bars, ToBar(c).time); p.Some? ==> SignatureOf(p.value) == SignatureOf(ToBar(c))
    ensures Consistent(init + [c])
    ensures forall d :: d in init && ToBar(d).time == ToBar(c).time ==> SignatureOf(ToBar(d)) == SignatureOf(ToBar(c))
  {
    hide SignatureOf, Find, ToBar, Clean;
    var previous := Find(bars, ToBar(c).time);
    forall d | d in init && ToBar(d).time == ToBar(c).time ensures SignatureOf(ToBar(d)) == SignatureOf(ToBar(c)) {
      assert Shown(d, bars);
      var x :| x in bars && SignatureOf(x) == SignatureOf(ToBar(d));
      SignatureTime(x, ToBar(d));
      SameTimeSameBar(bars, x, previous.value);
    }
  }

  lemma PlaceRepresents(init: seq<Candle>, c: Candle, bars: seq<ChartBar>)
    requires Represents(bars, init) && StrictlyIncreasing(bars)
    requires forall d :: d in init && ToBar(d).time == ToBar(c).time ==> SignatureOf(ToBar(d)) == SignatureOf(ToBar(c))
    ensures Represents(Place(bars, ToBar(c)), init + [c])
  {
    var b, all := ToBar(c), init + [c];
    var placed := Place(bars, b);
    PlaceOrders(bars, b);
    hide Place, SignatureOf, ToBar, StrictlyIncreasing;
    assert c in all;
    forall x | x in placed ensures FromCandle(x, all) {
      if x != b {
        assert FromCandle(x, init);
        var d :| d in init && ToBar(d) == x;
        assert d in all;
      }
    }
    forall d | d in all ensures Shown(d, placed) {
      if ToBar(d).time == b.time {
        assert SignatureOf(b) == SignatureOf(ToBar(d));
      } else {
        assert d in init && Shown(d, bars);
        var x :| x in bars && SignatureOf(x) == SignatureOf(ToBar(d));
        SignatureTime(x, ToBar(d));
        assert x in placed;
      }
    }
  }

  lemma SignatureTime(a: ChartBar, b: ChartBar)
    requires SignatureOf(a) == SignatureOf(b)
    ensures a.time == b.time
  {
  }

  lemma ConsistentPrefix(init: seq<Candle>, c: Candle)
    requires Consistent(init + [c])
    ensures Consistent(init) && Clean(c)
  {
    hide ToBar, SignatureOf, Clean;
    assert c in init + [c];
  }

  // ---------- payloads and the feed state ----------

  datatype Timeframe = M1 | M5 | M15 | H1 | H4

  datatype Payload = Payload(
    error: bool,
    unverified: bool,
    exchange: string,
    symbol: string,
    timeframe: Timeframe,
    canonicalPolicy: bool,
    revision: string,
    previousRevision: Option<string>,
    cutoff: Option<int>,
    truncated: bool,
    candles: seq<Candle>)

  /** lastSuccess is the time of the last accepted read, if there was one. */
  datatype Feed = Feed(status: Status, lastSuccess: Option<int>, gapSlots: real)

  function WidthMs(tf: Timeframe): (w: int)
    ensures w > 0
  {
    match tf
    case M1 => 60000
    case M5 => 300000
    case M15 => 900000
    case H1 => 3600000
    case H4 => 14400000
  }

  /** Missing bar slots between neighbours. */
  function GapSlots(candles: seq<Candle>, width: int): real
    requires width > 0
  {
    if |candles| < 2 then 0.0
    else
      var step := ToBar(candles[|candles| - 1]).time - ToBar(candles[|candles| - 2]).time;
      GapSlots(candles[..|candles| - 1], width) + Max(0.0, Ratio(step, width) - 1.0)
  }

  function Ratio(a: int, b: int): real
    requires b > 0
  {
    a as real / b as real
  }

  lemma RatioOfMultiple(k: int, width: int)
    requires width > 0
    ensures Ratio(k * width, width) == k as real
  {
    assert (k * width) as real == k as real * width as real;
  }

  lemma MultipleStep(a: int, b: int, width: int)
    ensures a * width - b * width == (a - b) * width
  {
  }

  function FeedState(p: Payload, now: int): Feed {
    var n, width := |p.candles|, WidthMs(p.timeframe);
    var unverified := exists k :: 0 <= k < n && (p.candles[k].proof == Some(Unverified) || p.candles[k].proof.None?);
    var stale := n > 0 && now - LastSeen(p.candles[n - 1]) > width + 30000;
    var status :=
      if stale then Stale
      else if unverified then Unverified
      else if n > 0 && p.candles[n - 1].proof.Some? then p.candles[n - 1].proof.value
      else if p.unverified then Unverified
      else Empty;
    Feed(status, Some(now), GapSlots(p.candles, width))
  }

  function LastSeen(c: Candle): int {
    if c.closeTime.Some? then c.closeTime.value * 1000 else ToBar(c).time
  }

  /** On a grid, the gap count is the number of slots spanned minus the bars shown. */
  lemma {:induction false} GapSlotsCount(candles: seq<Candle>, width: int, slots: seq<int>)
    requires width > 0 && |slots| == |candles| > 0
    requires forall k :: 0 <= k < |candles| ==> ToBar(candles[k]).time == slots[k] * width
    requires forall k :: 0 < k < |slots| ==> slots[k - 1] < slots[k]
    ensures GapSlots(candles, width) == (slots[|slots| - 1] - slots[0] + 1 - |candles|) as real
  {
    hide ToBar, Ratio;
    var n := |candles|;
    if n > 1 {
      GapSlotsCount(candles[..n - 1], width, slots[..n - 1]);
      MultipleStep(slots[n - 1], slots[n - 2], width);
      RatioOfMultiple(slots[n - 1] - slots[n - 2], width);
      assert slots[n - 2] < slots[n - 1];
    }
  }
}
