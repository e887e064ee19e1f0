/** Values shared by every model: optional cells, candles and window extremes. */
module Common {

  /** A cell that may be missing: Python's None, a pandas NaN or a JavaScript null. */
  datatype Option<+T> = None | Some(value: T)

  datatype Side = Long | Short

  function Sign(side: Side): real {
    if side == Long then 1.0 else -1.0
  }

  function Opposite(side: Side): Side {
    if side == Long then Short else Long
  }

  type Price = x: real | x > 0.0 witness 1.0

  /** What a strategy asks for: a side, a stop and perhaps a target. */
  datatype Intent = Intent(side: Side, stop: real, target: Option<real>)

  datatype Bar = Bar(ts: int, open: real, high: real, low: real, close: real, volume: real)

  /** Candle geometry with positive prices. */
  ghost predicate ValidBar(b: Bar) {
    && 0.0 < b.low <= b.open <= b.high
    && b.low <= b.close <= b.high
    && b.volume >= 0.0
  }

  ghost predicate ValidTape(bars: seq<Bar>) {
    forall k :: 0 <= k < |bars| ==> ValidBar(bars[k])
  }

  /** Closes that may be divided by. */
  ghost predicate Priced(bars: seq<Bar>) {
    forall k :: 0 <= k < |bars| ==> bars[k].close != 0.0
  }

  function Max(a: real, b: real): real {
    if a >= b then a else b
  }

  function Min(a: real, b: real): real {
    if a <= b then a else b
  }

  function Abs(a: real): real {
    if a >= 0.0 then a else -a
  }

  function MaxOf(s: seq<real>): (m: real)
    requires |s| > 0
    ensures exists k :: 0 <= k < |s| && s[k] == m
    ensures forall k :: 0 <= k < |s| ==> s[k] <= m
  {
    if |s| == 1 then s[0] else Max(MaxOf(s[..|s| - 1]), s[|s| - 1])
  }

  function MinOf(s: seq<real>): (m: real)
    requires |s| > 0
    ensures exists k :: 0 <= k < |s| && s[k] == m
    ensures forall k :: 0 <= k < |s| ==> m <= s[k]
  {
    if |s| == 1 then s[0] else Min(MinOf(s[..|s| - 1]), s[|s| - 1])
  }

  function Sum(s: seq<real>): real {
    if s == [] then 0.0 else Sum(s[..|s| - 1]) + s[|s| - 1]
  }

  function Highs(bars: seq<Bar>): (s: seq<real>)
    ensures |s| == |bars| && forall k :: 0 <= k < |s| ==> s[k] == bars[k].high
  {
    seq(|bars|, k requires 0 <= k < |bars| => bars[k].high)
  }

  function Lows(bars: seq<Bar>): (s: seq<real>)
    ensures |s| == |bars| && forall k :: 0 <= k < |s| ==> s[k] == bars[k].low
  {
    seq(|bars|, k requires 0 <= k < |bars| => bars[k].low)
  }

  function Closes(bars: seq<Bar>): (s: seq<real>)
    ensures |s| == |bars| && forall k :: 0 <= k < |s| ==> s[k] == bars[k].close
  {
    seq(|bars|, k requires 0 <= k < |bars| => bars[k].close)
  }

  function Volumes(bars: seq<Bar>): (s: seq<real>)
    ensures |s| == |bars| && forall k :: 0 <= k < |s| ==> s[k] == bars[k].volume
  {
    seq(|bars|, k requires 0 <= k < |bars| => bars[k].volume)
  }

  // ---------- ascending order and the median ----------

  ghost predicate Ascending(s: seq<real>) {
    forall j, k :: 0 <= j < k < |s| ==> s[j] <= s[k]
  }

  function Insert(x: real, s: seq<real>): (r: seq<real>)
    ensures |r| == |s| + 1
  {
    if s == [] || x <= s[0] then [x] + s else [s[0]] + Insert(x, s[1..])
  }

  function Sorted(s: seq<real>): (r: seq<real>)
    ensures |r| == |s|
  {
    if s == [] then [] else Insert(s[0], Sorted(s[1..]))
  }

  lemma BoundedBelow(bound: real, r: seq<real>, x: real, s: seq<real>)
    requires multiset(r) == multiset(s) + multiset{x}
    requires bound <= x && forall k :: 0 <= k < |s| ==> bound <= s[k]
    ensures forall k :: 0 <= k < |r| ==> bound <= r[k]
  {
    forall k | 0 <= k < |r| ensures bound <= r[k] {
      assert r[k] in multiset(r);
      assert r[k] == x || r[k] in s;
    }
  }

  lemma PrependAscending(x: real, s: seq<real>)
    requires Ascending(s) && forall k :: 0 <= k < |s| ==> x <= s[k]
    ensures Ascending([x] + s)
  {
  }

  lemma {:induction false} InsertAscending(x: real, s: seq<real>)
    requires Ascending(s)
    ensures multiset(Insert(x, s)) == multiset(s) + multiset{x}
    ensures Ascending(Insert(x, s))
  {
    if s == [] || x <= s[0] {
      PrependAscending(x, s);
    } else {
      hide Ascending;
      TailAscending(s);
      InsertAscending(x, s[1..]);
      assert s == [s[0]] + s[1..];
      BoundedBelow(s[0], Insert(x, s[1..]), x, s[1..]);
      PrependAscending(s[0], Insert(x, s[1..]));
    }
  }

  lemma TailAscending(s: seq<real>)
    requires s != [] && Ascending(s)
    ensures Ascending(s[1..]) && forall k :: 0 <= k < |s[1..]| ==> s[0] <= s[1..][k]
  {
  }

  lemma {:induction false} SortedAscending(s: seq<real>)
    ensures Ascending(Sorted(s)) && multiset(Sorted(s)) == multiset(s)
  {
    if s != [] {
      SortedAscending(s[1..]);
      InsertAscending(s[0], Sorted(s[1..]));
      assert s == [s[0]] + s[1..];
    }
  }

  /** The middle value, or the mean of the two middle values. */
  function Median(s: seq<real>): real
    requires |s| > 0
  {
    var r := Sorted(s);
    if |s| % 2 == 1 then r[|s| / 2] else (r[|s| / 2 - 1] + r[|s| / 2]) / 2.0
  }

  lemma {:induction false} SumNonNegative(s: seq<real>)
    requires forall k :: 0 <= k < |s| ==> s[k] >= 0.0
    ensures Sum(s) >= 0.0
  {
    if s != [] {
      SumNonNegative(s[..|s| - 1]);
    }
  }

  lemma {:induction false} SumOfEqual(s: seq<real>, v: real)
    requires forall k :: 0 <= k < |s| ==> s[k] == v
    ensures Sum(s) == |s| as real * v
  {
    if s != [] {
      SumOfEqual(s[..|s| - 1], v);
    }
  }

  lemma {:induction false} SumAppend(s: seq<real>, t: seq<real>)
    ensures Sum(s + t) == Sum(s) + Sum(t)
  {
    if t == [] {
      assert s + t == s;
    } else {
      var init := t[..|t| - 1];
      assert (s + t)[..|s + t| - 1] == s + init;
      SumAppend(s, init);
    }
  }

  /** A product, named so that proofs need not look inside it. */
  function Times(a: real, b: real): real {
    a * b
  }

  lemma TimesSign(a: real, b: real)
    requires a >= 0.0 && b > 0.0
    ensures Times(a, b) >= 0.0 && (a > 0.0 ==> Times(a, b) > 0.0)
  {
  }

  // ---------- reflection about a level ----------

  ghost predicate Reflects(c: real, xs: seq<real>, ys: seq<real>) {
    |xs| == |ys| && forall k :: 0 <= k < |xs| ==> ys[k] == c - xs[k]
  }

  lemma ExtremesReflect(c: real, xs: seq<real>, ys: seq<real>)
    requires Reflects(c, xs, ys) && |xs| > 0
    ensures MinOf(ys) == c - MaxOf(xs) && MaxOf(ys) == c - MinOf(xs)
  {
    var a :| 0 <= a < |xs| && xs[a] == MaxOf(xs);
    var b :| 0 <= b < |xs| && xs[b] == MinOf(xs);
    assert ys[a] == c - MaxOf(xs) && ys[b] == c - MinOf(xs);
    hide MinOf, MaxOf;
    var p :| 0 <= p < |ys| && ys[p] == MinOf(ys);
    var q :| 0 <= q < |ys| && ys[q] == MaxOf(ys);
    assert xs[p] <= MaxOf(xs) && xs[q] >= MinOf(xs);
  }
}
