/** Columns that restart at a bad slot: group the good rows by the running count
    of bad ones, then compute inside each group. */
module Segments {

  /** The running count of bad slots up to and including slot i. */
  function BadCount(ok: seq<bool>, i: nat): nat
    requires i < |ok|
  {
    (if i == 0 then 0 else BadCount(ok, i - 1)) + (if ok[i] then 0 else 1)
  }

  /** First slot of the unbroken good stretch that contains i. */
  function Start(ok: seq<bool>, i: nat): (s: nat)
    requires i < |ok| && ok[i]
    ensures s <= i
    ensures forall k :: s <= k <= i ==> ok[k]
    ensures s == 0 || !ok[s - 1]
  {
    if i == 0 || !ok[i - 1] then i else Start(ok, i - 1)
  }

  /** One past the last slot of the unbroken good stretch that contains i. */
  function End(ok: seq<bool>, i: nat): (e: nat)
    requires i < |ok| && ok[i]
    ensures i < e <= |ok|
    ensures forall k :: i <= k < e ==> ok[k]
    ensures e == |ok| || !ok[e]
    decreases |ok| - i
  {
    if i + 1 == |ok| || !ok[i + 1] then i + 1 else End(ok, i + 1)
  }

  lemma {:induction false} BadCountMonotone(ok: seq<bool>, i: nat, j: nat)
    requires i <= j < |ok|
    ensures BadCount(ok, i) <= BadCount(ok, j)
    ensures BadCount(ok, i) == BadCount(ok, j) <==> forall k :: i < k <= j ==> ok[k]
    decreases j
  {
    if i < j {
      BadCountMonotone(ok, i, j - 1);
    }
  }

  /** Grouping by the running count yields exactly the unbroken good stretches. */
  lemma {:induction false} GroupIsStretch(ok: seq<bool>, i: nat, k: nat)
    requires i < |ok| && k < |ok| && ok[i]
    ensures (ok[k] && BadCount(ok, k) == BadCount(ok, i)) <==> Start(ok, i) <= k < End(ok, i)
  {
    var s, e := Start(ok, i), End(ok, i);
    if k <= i {
      BadCountMonotone(ok, k, i);
      if k < s && ok[k] {
        assert !ok[s - 1] && k < s - 1;
      }
    } else {
      BadCountMonotone(ok, i, k);
      if e <= k {
        assert !ok[e] && i < e <= k;
      }
    }
  }

  /** The start of a stretch is fixed by the slots up to i. */
  lemma {:induction false} StartCausal(a: seq<bool>, b: seq<bool>, i: nat)
    requires i < |a| && i < |b| && a[i]
    requires a[..i + 1] == b[..i + 1]
    ensures b[i] && Start(a, i) == Start(b, i)
  {
    assert b[i] == b[..i + 1][i] == a[..i + 1][i];
    forall k | 0 <= k <= i ensures a[k] == b[k] {
      assert a[k] == a[..i + 1][k];
    }
    var s, t := Start(a, i), Start(b, i);
    assert s == 0 || !a[s - 1];
    assert t == 0 || !b[t - 1];
    assert s == t;
  }

  /** Dropping everything up to a bad slot only shifts the later stretches. */
  lemma {:induction false} StartAfterBad(ok: seq<bool>, d: nat, j: nat)
    requires 0 < d && d + j < |ok| && !ok[d - 1] && ok[d + j]
    ensures Start(ok, d + j) == d + Start(ok[d..], j)
  {
    var s, t := Start(ok, d + j), Start(ok[d..], j);
    assert d <= s;
    assert t == 0 || !ok[d + t - 1];
    assert forall k :: d <= k < |ok| ==> ok[k] == ok[d..][k - d];
    assert s == d || !ok[s - 1];
  }
}
