/** Laws of the chart data provider over every interleaving of page loads, polls,
    subscriptions, answers and destruction. */
module ChartProviderLaws {
  import opened Common
  import opened ChartCandles
  import opened ChartProvider

  datatype Op =
    | LoadPage(ticker: string, timeframe: string, latestRead: bool)
    | Tick(tf: Timeframe, now: int)
    | Join(ticker: string, timeframe: string, callback: int, now: int)
    | Leave(tf: Timeframe, callback: int)
    | Arrive(id: nat, r: Response, now: int)
    | Close

  // ---------- what every reachable state keeps ----------

  /** One subscription's deliveries: time order, no repeat of the previous bar,
      nothing older than the tail known when it was made. */
  ghost predicate SubOk(b: Sub) {
    && (forall j, k :: 0 <= j < k < |b.delivered| ==> b.delivered[j].time <= b.delivered[k].time)
    && (forall k :: 0 < k < |b.delivered| ==> SignatureOf(b.delivered[k - 1]) != SignatureOf(b.delivered[k]))
    && (b.tail.Some? ==> forall k :: 0 <= k < |b.delivered| ==> b.tail.value <= b.delivered[k].time)
    && if b.delivered == [] then b.lastTime == b.tail && b.lastSignature == None
       else var last := b.delivered[|b.delivered| - 1];
            b.lastTime == Some(last.time) && b.lastSignature == Some(SignatureOf(last))
  }

  ghost predicate Polls(s: State, id: nat, sub: nat) {
    id in s.fetches && s.fetches[id].Poll? && s.fetches[id].sub == sub
  }

  /** A subscription has an open request exactly when it is marked in flight,
      and never more than one. */
  ghost predicate FetchesOk(s: State) {
    && (forall id :: id in s.fetches ==> id < s.nextFetch)
    && (forall id: nat, sub: nat :: Polls(s, id, sub) ==>
          sub < |s.table| && s.table[sub].inFlight && s.table[sub].tf == s.fetches[id].tf)
    && (forall a: nat, b: nat, sub: nat :: Polls(s, a, sub) && Polls(s, b, sub) ==> a == b)
    && (forall sub :: 0 <= sub < |s.table| && s.table[sub].inFlight ==> exists id: nat :: Polls(s, id, sub))
  }

  ghost predicate TableOk(s: State) {
    && (forall tf :: tf in s.subscriptions ==> s.subscriptions[tf] < |s.table| && s.table[s.subscriptions[tf]].tf == tf)
    && (forall k :: 0 <= k < |s.table| ==> SubOk(s.table[k]))
  }

  ghost predicate Sound(s: State) {
    && TableOk(s)
    && FetchesOk(s)
    && s.revisionCalls == (if s.invalidated then 1 else 0)
  }

  /** How a later state relates to an earlier one. */
  ghost predicate Later(s: State, t: State) {
    && (s.invalidated ==> t.invalidated)
    && (s.destroyed ==> t.destroyed)
    && (forall tf :: tf in s.revisions ==>
        tf in t.revisions && NotBefore(t.revisions[tf].cutoff, s.revisions[tf].cutoff))
    && (forall tf :: tf in s.latest ==> tf in t.latest && s.latest[tf] <= t.latest[tf])
    && |s.table| <= |t.table|
    && (forall k :: 0 <= k < |s.table| ==> SameSub(s.table[k], t.table[k]))
    && s.returned <= t.returned
    && s.notified <= t.notified
    && (s.destroyed || s.invalidated ==> t.returned == s.returned && Undelivered(s, t))
    && (s.destroyed ==> t.notified == s.notified)
  }

  ghost predicate SameSub(a: Sub, b: Sub) {
    a.tf == b.tf && a.tail == b.tail && a.delivered <= b.delivered
  }

  /** No bar is delivered to anyone between s and t. */
  ghost predicate Undelivered(s: State, t: State) {
    && |s.table| <= |t.table|
    && (forall k :: 0 <= k < |s.table| ==> t.table[k].delivered == s.table[k].delivered)
    && (forall k :: |s.table| <= k < |t.table| ==> t.table[k].delivered == [])
  }

  function Apply(s: State, m: Market, op: Op): State
    requires Sound(s)
  {
    match op
    case LoadPage(ticker, timeframe, latestRead) => LoadIn(s, m, ticker, timeframe, latestRead)
    case Tick(tf, now) => StartPoll(s, tf, now)
    case Join(ticker, timeframe, callback, now) => JoinIn(s, m, ticker, timeframe, callback, now)
    case Leave(tf, callback) => Unsubscribe(s, tf, callback)
    case Arrive(id, r, now) => ArriveIn(s, m, id, r, now)
    case Close => Destroy(s)
  }

  function LoadIn(s: State, m: Market, ticker: string, timeframe: string, latestRead: bool): State {
    match CallPage(m, ticker, timeframe)
    case Requested(tf) => StartPage(s, tf, latestRead)
    case _ => s
  }

  function JoinIn(s: State, m: Market, ticker: string, timeframe: string, callback: int, now: int): State
    requires Sound(s)
  {
    match CallJoin(m, ticker, timeframe)
    case Joined(tf) => Subscribe(s, tf, callback, now)
    case _ => s
  }

  function ArriveIn(s: State, m: Market, id: nat, r: Response, now: int): State
    requires Sound(s)
  {
    assert id in s.fetches && s.fetches[id].Poll? ==> Polls(s, id, s.fetches[id].sub);
    if id in s.fetches then Resolve(s, m, id, r, now) else s
  }

  // ---------- one delivery ----------

  lemma OfferOk(b: Sub, bar: ChartBar)
    requires SubOk(b)
    ensures SubOk(Offer(b, bar))
    ensures SameSub(b, Offer(b, bar))
  {
    hide SignatureOf;
    if b.lastTime.Some? && bar.time < b.lastTime.value {
    } else if b.lastSignature != Some(SignatureOf(bar)) && b.delivered != [] {
      var n := |b.delivered|;
      assert forall k :: 0 <= k < n ==> b.delivered[k].time <= b.delivered[n - 1].time;
    }
  }

  lemma {:induction false} DeliverOk(b: Sub, bars: seq<ChartBar>)
    requires SubOk(b)
    ensures SubOk(Deliver(b, bars)) && SameSub(b, Deliver(b, bars))
  {
    hide Offer, SubOk;
    if bars != [] {
      DeliverOk(b, bars[..|bars| - 1]);
      OfferOk(Deliver(b, bars[..|bars| - 1]), bars[|bars| - 1]);
    }
  }

  ghost predicate Skipped(b: Sub, bar: ChartBar) {
    (b.lastTime.Some? && bar.time < b.lastTime.value) || b.lastSignature == Some(SignatureOf(bar))
  }

  /** c is b after delivering exactly the bars from position k on. */
  ghost predicate Delivers(b: Sub, c: Sub, bars: seq<ChartBar>, k: nat) {
    && k <= |bars|
    && c.delivered == b.delivered + bars[k..]
    && (forall j :: 0 <= j < k ==> Skipped(b, bars[j]))
    && (k == |bars| ==> c == b)
  }

  /** From an accepted page, which is in strict time order, a poll delivers one
      whole suffix: every bar after the stale or repeated ones, none left out. */
  lemma {:induction false} DeliversSuffix(b: Sub, bars: seq<ChartBar>)
    requires SubOk(b) && StrictlyIncreasing(bars)
    ensures exists k: nat :: Delivers(b, Deliver(b, bars), bars, k)
  {
    hide Offer, SubOk, SignatureOf, Delivers;
    if bars == [] {
      DeliversNothing(b);
      assert Delivers(b, Deliver(b, bars), bars, 0);
    } else {
      var init, bar := bars[..|bars| - 1], bars[|bars| - 1];
      DeliversSuffix(b, init);
      DeliverOk(b, init);
      var k: nat :| Delivers(b, Deliver(b, init), init, k);
      assert init + [bar] == bars;
      var m := DeliversMore(b, Deliver(b, init), init, bar, k);
      assert Delivers(b, Deliver(b, bars), bars, m);
    }
  }

  lemma DeliversNothing(b: Sub)
    ensures Delivers(b, b, [], 0)
  {
  }

  lemma DeliversMore(b: Sub, c: Sub, init: seq<ChartBar>, bar: ChartBar, k: nat) returns (m: nat)
    requires SubOk(c) && Delivers(b, c, init, k)
    requires forall j :: 0 <= j < |init| ==> init[j].time < bar.time
    ensures Delivers(b, Offer(c, bar), init + [bar], m)
  {
    hide Offer, SubOk, SignatureOf, Skipped;
    OfferEffect(c, bar);
    m := if k == |init| && Skipped(b, bar) then k + 1 else k;
    if k < |init| {
      assert c.delivered[|c.delivered| - 1] == init[|init| - 1];
      LaterTaken(c, bar);
    }
    assert (init + [bar])[k..] == init[k..] + [bar];
    assert b.delivered + (init[k..] + [bar]) == (b.delivered + init[k..]) + [bar];
  }

  lemma OfferEffect(b: Sub, bar: ChartBar)
    ensures Skipped(b, bar) ==> Offer(b, bar) == b
    ensures !Skipped(b, bar) ==> Offer(b, bar).delivered == b.delivered + [bar]
  {
    hide SignatureOf;
  }

  lemma LaterTaken(b: Sub, bar: ChartBar)
    requires SubOk(b) && b.delivered != [] && b.delivered[|b.delivered| - 1].time < bar.time
    ensures !Skipped(b, bar)
  {
  }

  // ---------- reading a payload ----------

  ghost predicate CallsOk(s: State) {
    s.revisionCalls == if s.invalidated then 1 else 0
  }

  /** Reading changes no subscription, request or page result, and only moves
      revisions and latest times forward. */
  ghost predicate Reads(s: State, t: State) {
    && Untouched(s, t)
    && CallsOk(t)
    && (s.invalidated ==> t.invalidated)
    && (forall tf :: tf in s.revisions ==>
        tf in t.revisions && NotBefore(t.revisions[tf].cutoff, s.revisions[tf].cutoff))
    && (forall tf :: tf in s.latest ==> tf in t.latest && s.latest[tf] <= t.latest[tf])
    && s.notified <= t.notified
    && (s.destroyed ==> t.notified == s.notified)
  }

  lemma ReadsThen(s: State, t: State, u: State)
    requires Reads(s, t) && Reads(t, u)
    ensures Reads(s, u)
  {
  }

  lemma NotifyReads(s: State, feed: Feed)
    requires CallsOk(s)
    ensures Reads(s, s) && Reads(s, Notify(s, feed)) && Reads(s, Complain(s))
  {
  }

  lemma InvalidateReads(s: State)
    requires CallsOk(s) && !s.invalidated
    ensures Reads(s, Invalidate(s)) && Invalidate(s).invalidated
  {
  }

  lemma RevisionReads(s: State, p: Payload, tf: Timeframe, latestRead: bool)
    requires CallsOk(s)
    ensures Reads(s, StoreRevision(s, p, tf, latestRead))
  {
  }

  lemma LatestReads(s: State, bars: seq<ChartBar>, tf: Timeframe)
    requires CallsOk(s)
    ensures Reads(s, StoreLatest(s, bars, tf))
  {
  }

  /** Reading a payload, whatever it holds, keeps all of that; a closed or
      invalidated provider refuses it. */
  lemma AcceptReads(s: State, m: Market, p: Payload, tf: Timeframe, latestRead: bool, baseline: Option<Revision>,
                    now: int)
    requires CallsOk(s)
    ensures Reads(s, Accept(s, m, p, tf, latestRead, baseline, now).0)
    ensures Accept(s, m, p, tf, latestRead, baseline, now).1.Accepted? ==>
      && !s.destroyed && !s.invalidated
      && !Accept(s, m, p, tf, latestRead, baseline, now).0.invalidated
      && StrictlyIncreasing(Accept(s, m, p, tf, latestRead, baseline, now).1.bars)
  {
    hide Reads, Untouched, CallsOk, Identified, Unique, Notify, Invalidate, StoreRevision, StoreLatest, FeedState,
      Repaired;
    var t := StoreRevision(s, p, tf, latestRead);
    NotifyReads(s, s.feed);
    if !s.invalidated {
      InvalidateReads(s);
    }
    RevisionReads(s, p, tf, latestRead);
    ReadsCalls(s, t);
    UniqueExactly(p.candles);
    if Unique(p.candles).Good? {
      var bars := Unique(p.candles).bars;
      LatestReads(t, bars, tf);
      var u := StoreLatest(t, bars, tf);
      ReadsThen(s, t, u);
      ReadsCalls(t, u);
      NotifyReads(u, FeedState(p, now));
      ReadsThen(s, u, Notify(u, FeedState(p, now)));
      StoresQuiet(s, p, tf, latestRead, bars, FeedState(p, now));
    }
  }

  lemma ReadsCalls(s: State, t: State)
    requires Reads(s, t)
    ensures CallsOk(t)
  {
  }

  lemma StoresQuiet(s: State, p: Payload, tf: Timeframe, latestRead: bool, bars: seq<ChartBar>, feed: Feed)
    ensures var u := StoreLatest(StoreRevision(s, p, tf, latestRead), bars, tf);
            u.invalidated == s.invalidated && Notify(u, feed).invalidated == s.invalidated
  {
  }

  /** An older page never moves a stored revision. */
  lemma OlderPageKeepsBaseline(s: State, m: Market, p: Payload, tf: Timeframe, baseline: Option<Revision>, now: int)
    requires tf in s.revisions
    ensures Accept(s, m, p, tf, false, baseline, now).0.revisions == s.revisions
  {
    hide Identified, Unique, FeedState, Repaired;
  }

  // ---------- one step ----------

  lemma ReadsIsLater(s: State, t: State)
    requires Sound(s) && Reads(s, t)
    ensures Sound(t) && Later(s, t)
  {
    hide SubOk;
    SameFetches(s, t);
  }

  /** Request facts depend only on the requests and the table. */
  lemma SameFetches(s: State, t: State)
    requires FetchesOk(s) && t.fetches == s.fetches && t.table == s.table && t.nextFetch == s.nextFetch
    ensures FetchesOk(t)
  {
    assert forall id: nat, sub: nat :: Polls(t, id, sub) <==> Polls(s, id, sub);
  }

  lemma LaterThen(s: State, t: State, u: State)
    requires Later(s, t) && Later(t, u)
    ensures Later(s, u)
  {
    forall k | 0 <= k < |s.table| ensures SameSub(s.table[k], u.table[k]) {
      assert SameSub(s.table[k], t.table[k]) && SameSub(t.table[k], u.table[k]);
    }
  }

  /** The same subscription up to its callbacks and the in-flight mark. */
  ghost predicate SameFeed(a: Sub, b: Sub) {
    && a.tf == b.tf && a.tail == b.tail && a.delivered == b.delivered
    && a.lastTime == b.lastTime && a.lastSignature == b.lastSignature
  }

  lemma SameFeedOk(a: Sub, b: Sub)
    requires SubOk(a) && SameFeed(a, b)
    ensures SubOk(b)
  {
    hide SignatureOf;
  }

  /** Nothing but one subscription's callbacks or in-flight mark changes. */
  ghost predicate Tweaks(s: State, t: State, sub: nat) {
    && sub < |s.table| == |t.table|
    && SameFeed(s.table[sub], t.table[sub])
    && (forall k :: 0 <= k < |s.table| && k != sub ==> t.table[k] == s.table[k])
    && t.invalidated == s.invalidated && t.destroyed == s.destroyed && t.revisionCalls == s.revisionCalls
    && t.revisions == s.revisions && t.latest == s.latest && t.returned == s.returned && t.notified == s.notified
  }

  lemma TweakKeeps(s: State, t: State, sub: nat)
    requires TableOk(s) && Tweaks(s, t, sub)
    requires forall tf :: tf in t.subscriptions ==> tf in s.subscriptions && t.subscriptions[tf] == s.subscriptions[tf]
    ensures TableOk(t) && Later(s, t) && Undelivered(s, t)
  {
    hide SubOk, NotBefore;
    SameFeedOk(s.table[sub], t.table[sub]);
    assert forall tf :: tf in s.revisions ==>
      NotBefore(s.revisions[tf].cutoff, s.revisions[tf].cutoff) by { CutoffReflexive(s); }
  }

  lemma CutoffReflexive(s: State)
    ensures forall tf :: tf in s.revisions ==> NotBefore(s.revisions[tf].cutoff, s.revisions[tf].cutoff)
  {
  }

  lemma PollAdded(s: State, t: State, sub: nat, baseline: Option<Revision>)
    requires FetchesOk(s) && Tweaks(s, t, sub) && !s.table[sub].inFlight && t.table[sub].inFlight
    requires t.fetches == s.fetches[s.nextFetch := Poll(s.table[sub].tf, sub, baseline)]
      && t.nextFetch == s.nextFetch + 1
    ensures FetchesOk(t)
  {
    assert forall id: nat, x: nat :: Polls(t, id, x) <==> Polls(s, id, x) || (id == s.nextFetch && x == sub);
    forall x | 0 <= x < |t.table| && t.table[x].inFlight ensures exists id: nat :: Polls(t, id, x) {
      if x == sub {
        assert Polls(t, s.nextFetch, x);
      } else {
        var id: nat :| Polls(s, id, x);
        assert Polls(t, id, x);
      }
    }
  }

  lemma PageAdded(s: State, t: State, f: Fetch)
    requires FetchesOk(s) && f.Page? && t.table == s.table
    requires t.fetches == s.fetches[s.nextFetch := f] && t.nextFetch == s.nextFetch + 1
    ensures FetchesOk(t)
  {
    assert forall id: nat, x: nat :: Polls(t, id, x) <==> Polls(s, id, x);
  }

  lemma CallbacksOnly(s: State, t: State, sub: nat)
    requires FetchesOk(s) && Tweaks(s, t, sub) && t.table[sub].inFlight == s.table[sub].inFlight
    requires t.fetches == s.fetches && t.nextFetch == s.nextFetch
    ensures FetchesOk(t)
  {
    assert forall id: nat, x: nat :: Polls(t, id, x) <==> Polls(s, id, x);
  }

  lemma NothingHappens(s: State)
    ensures Later(s, s) && Undelivered(s, s)
  {
  }

  /** Quiet steps keep the invariant and deliver and return nothing. */
  ghost predicate Quiet(s: State, t: State) {
    Sound(t) && Later(s, t) && Undelivered(s, t) && t.returned == s.returned
  }

  lemma QuietThen(s: State, t: State, u: State)
    requires Quiet(s, t) && Quiet(t, u)
    ensures Quiet(s, u)
  {
    hide Sound;
    LaterThen(s, t, u);
    hide Later;
  }

  lemma StartPollQuiet(s: State, tf: Timeframe, now: int)
    requires Sound(s)
    ensures Quiet(s, StartPoll(s, tf, now))
  {
    hide SubOk, Reads, SameFeed, FetchesOk, NotBefore, Notify, Later, SendPoll;
    NotifyReads(s, s.feed.(status := Stale));
    ReadsIsLater(s, s);
    ReadsIsLater(s, Notify(s, s.feed.(status := Stale)));
    if !(s.destroyed || s.invalidated || tf !in s.subscriptions || s.table[s.subscriptions[tf]].callbacks == {}) {
      var id := s.subscriptions[tf];
      var late := s.feed.lastSuccess.Some? && s.feed.lastSuccess.value != 0 && now - s.feed.lastSuccess.value > 30000;
      var t := if late then Notify(s, s.feed.(status := Stale)) else s;
      assert t.table == s.table && t.subscriptions == s.subscriptions;
      if !t.table[id].inFlight {
        PollSent(t, tf, id);
        LaterThen(s, t, SendPoll(t, tf, id));
        SendsPoll(s, tf, now, id, t);
      }
    }
  }

  lemma SendsPoll(s: State, tf: Timeframe, now: int, id: nat, t: State)
    requires tf in s.subscriptions && s.subscriptions[tf] == id < |s.table| && |t.table| == |s.table|
    requires !s.destroyed && !s.invalidated && s.table[id].callbacks != {} && !t.table[id].inFlight
    requires t == if s.feed.lastSuccess.Some? && s.feed.lastSuccess.value != 0 && now - s.feed.lastSuccess.value > 30000
                  then Notify(s, s.feed.(status := Stale)) else s
    ensures StartPoll(s, tf, now) == SendPoll(t, tf, id)
  {
    hide Notify;
  }

  function SendPoll(t: State, tf: Timeframe, id: nat): State
    requires id < |t.table|
  {
    t.(table := t.table[id := t.table[id].(inFlight := true)],
       fetches := t.fetches[t.nextFetch := Poll(tf, id, Get(t.revisions, tf))],
       nextFetch := t.nextFetch + 1)
  }

  lemma PollSent(t: State, tf: Timeframe, id: nat)
    requires Sound(t) && id < |t.table| && t.table[id].tf == tf && !t.table[id].inFlight
    ensures Quiet(t, SendPoll(t, tf, id))
  {
    hide SubOk, FetchesOk, NotBefore;
    var u := SendPoll(t, tf, id);
    assert Tweaks(t, u, id);
    TweakKeeps(t, u, id);
    PollAdded(t, u, id, Get(t.revisions, tf));
  }

  lemma JoinQuiet(s: State, tf: Timeframe, callback: int, now: int)
    requires Sound(s)
    ensures Quiet(s, Subscribe(s, tf, callback, now))
  {
    hide SubOk, FetchesOk, NotBefore, StartPoll, Later;
    if tf in s.subscriptions {
      var id, t := s.subscriptions[tf], Subscribe(s, tf, callback, now);
      assert Tweaks(s, t, id);
      TweakKeeps(s, t, id);
      CallbacksOnly(s, t, id);
    } else {
      var t := NewSub(s, tf, callback);
      NewSubQuiet(s, tf, callback);
      StartPollQuiet(t, tf, now);
      QuietThen(s, t, StartPoll(t, tf, now));
    }
  }

  function NewSub(s: State, tf: Timeframe, callback: int): State {
    var tail := Get(s.latest, tf);
    s.(subscriptions := s.subscriptions[tf := |s.table|],
       table := s.table + [Sub(tf, {callback}, false, None, tail, tail, [])])
  }

  lemma NewSubQuiet(s: State, tf: Timeframe, callback: int)
    requires Sound(s) && tf !in s.subscriptions
    ensures Quiet(s, NewSub(s, tf, callback))
  {
    hide FetchesOk, Later, TableOk;
    NewSubTable(s, tf, callback);
    NewSubFetches(s, NewSub(s, tf, callback));
  }

  lemma NewSubTable(s: State, tf: Timeframe, callback: int)
    requires TableOk(s) && tf !in s.subscriptions
    ensures TableOk(NewSub(s, tf, callback)) && Later(s, NewSub(s, tf, callback))
  {
    hide NotBefore, SubOk;
    CutoffReflexive(s);
    NewSubOk(tf, callback, Get(s.latest, tf));
    var t := NewSub(s, tf, callback);
    assert forall k :: 0 <= k < |s.table| ==> t.table[k] == s.table[k];
    assert Later(s, t);
    hide Later;
    assert t.table[|s.table|].tf == tf;
  }

  lemma NewSubOk(tf: Timeframe, callback: int, tail: Option<int>)
    ensures SubOk(Sub(tf, {callback}, false, None, tail, tail, []))
  {
  }

  lemma NewSubFetches(s: State, t: State)
    requires FetchesOk(s) && t.fetches == s.fetches && t.nextFetch == s.nextFetch
    requires |t.table| == |s.table| + 1 && t.table[..|s.table|] == s.table && !t.table[|s.table|].inFlight
    ensures FetchesOk(t)
  {
    assert forall id: nat, x: nat :: Polls(t, id, x) <==> Polls(s, id, x);
    assert forall k :: 0 <= k < |s.table| ==> t.table[k] == t.table[..|s.table|][k];
    forall x | 0 <= x < |t.table| && t.table[x].inFlight ensures exists id: nat :: Polls(t, id, x) {
      var id: nat :| Polls(s, id, x);
      assert Polls(t, id, x);
    }
  }

  lemma LeaveQuiet(s: State, tf: Timeframe, callback: int)
    requires Sound(s)
    ensures Quiet(s, Unsubscribe(s, tf, callback))
  {
    hide SubOk, FetchesOk, Later, Undelivered, Unsubscribe, SameFeed;
    NothingHappens(s);
    var t := Unsubscribe(s, tf, callback);
    LeaveShape(s, tf, callback);
    if tf in s.subscriptions {
      TweakKeeps(s, t, s.subscriptions[tf]);
      CallbacksOnly(s, t, s.subscriptions[tf]);
    }
  }

  lemma LeaveShape(s: State, tf: Timeframe, callback: int)
    requires TableOk(s)
    ensures var t := Unsubscribe(s, tf, callback);
      if tf !in s.subscriptions then t == s
      else
        var id := s.subscriptions[tf];
        && Tweaks(s, t, id) && t.table[id].inFlight == s.table[id].inFlight
        && t.fetches == s.fetches && t.nextFetch == s.nextFetch
        && forall x :: x in t.subscriptions ==> x in s.subscriptions && t.subscriptions[x] == s.subscriptions[x]
  {
    if tf in s.subscriptions {
      var id := s.subscriptions[tf];
      assert id < |s.table|;
      hide TableOk, SubOk, Tweaks;
      Leaves(s, tf, callback, id);
    }
  }

  /** The two ways to leave: others stay, or the subscription goes. */
  lemma Leaves(s: State, tf: Timeframe, callback: int, id: nat)
    requires tf in s.subscriptions && s.subscriptions[tf] == id < |s.table|
    ensures var t := Unsubscribe(s, tf, callback);
      && Tweaks(s, t, id) && t.table[id].inFlight == s.table[id].inFlight
      && t.fetches == s.fetches && t.nextFetch == s.nextFetch
      && forall x :: x in t.subscriptions ==> x in s.subscriptions && t.subscriptions[x] == s.subscriptions[x]
  {
    var left := s.table[id].callbacks - {callback};
    var c := s.table[id].(callbacks := left);
    var t := s.(table := s.table[id := c]);
    assert Unsubscribe(s, tf, callback) == if left == {} then t.(subscriptions := t.subscriptions - {tf}) else t;
    hide Unsubscribe;
    CallbacksTweak(s, t, id, c);
    TweaksElsewhere(s, t, t.(subscriptions := t.subscriptions - {tf}), id);
  }

  lemma CallbacksTweak(s: State, t: State, id: nat, c: Sub)
    requires id < |s.table| && SameFeed(s.table[id], c) && t == s.(table := s.table[id := c])
    ensures Tweaks(s, t, id)
  {
    hide SameFeed;
  }

  lemma TweaksElsewhere(s: State, t: State, u: State, id: nat)
    requires Tweaks(s, t, id) && u == t.(subscriptions := u.subscriptions)
    ensures Tweaks(s, u, id)
  {
    hide SameFeed;
  }

  /** A change to the requests alone is no step back and delivers nothing. */
  lemma OnlyRequests(s: State, t: State)
    requires t == s.(fetches := t.fetches, nextFetch := t.nextFetch)
    ensures Later(s, t) && Undelivered(s, t) && t.returned == s.returned
  {
    hide NotBefore;
    CutoffReflexive(s);
  }

  lemma PageQuiet(s: State, tf: Timeframe, latestRead: bool)
    requires Sound(s)
    ensures Quiet(s, StartPage(s, tf, latestRead))
  {
    hide FetchesOk, TableOk, Later, Undelivered;
    var t := StartPage(s, tf, latestRead);
    OnlyRequests(s, t);
    PageAdded(s, t, Page(tf, latestRead, Get(s.revisions, tf)));
    SameTable(s, t);
  }

  lemma CloseQuiet(s: State)
    requires Sound(s)
    ensures Quiet(s, Destroy(s))
  {
    hide FetchesOk, TableOk, Later, Undelivered;
    SameFetches(s, Destroy(s));
    DestroyKeepsTable(s);
    ClosedLater(s);
  }

  lemma ClosedLater(s: State)
    ensures Later(s, Destroy(s)) && Undelivered(s, Destroy(s)) && Destroy(s).returned == s.returned
  {
    hide NotBefore;
    CutoffReflexive(s);
  }

  lemma DestroyKeepsTable(s: State)
    requires TableOk(s)
    ensures TableOk(Destroy(s))
  {
    hide SubOk;
  }

  // ---------- answers ----------

  lemma PageRemoved(s: State, id: nat)
    requires Sound(s) && id in s.fetches && s.fetches[id].Page?
    ensures Quiet(s, s.(fetches := s.fetches - {id}))
  {
    hide SubOk, NotBefore;
    CutoffReflexive(s);
    var t := s.(fetches := s.fetches - {id});
    assert forall x: nat, sub: nat :: Polls(t, x, sub) <==> Polls(s, x, sub);
  }

  lemma PageArrives(s: State, m: Market, id: nat, r: Response, now: int)
    requires Sound(s) && id in s.fetches && s.fetches[id].Page?
    ensures var u := Resolve(s, m, id, r, now);
            Sound(u) && Later(s, u) && Undelivered(s, u)
  {
    hide SubOk, FetchesOk, Reads, Accept, NotBefore, Later, TableOk;
    var f, t := s.fetches[id], s.(fetches := s.fetches - {id});
    PageRemoved(s, id);
    if r.Answered? {
      var (u, a) := Accept(t, m, r.payload, f.tf, f.latestRead, f.baseline, now);
      AcceptReads(t, m, r.payload, f.tf, f.latestRead, f.baseline, now);
      ReadsIsLater(t, u);
      LaterThen(s, t, u);
      ReadsUntouched(t, u);
      if a.Accepted? {
        ReturnedLater(s, u, a.bars);
        SameFetches(u, u.(returned := u.returned + [a.bars]));
        SameTable(u, u.(returned := u.returned + [a.bars]));
      }
    }
  }

  lemma ReadsUntouched(s: State, t: State)
    requires Reads(s, t)
    ensures Untouched(s, t)
  {
  }

  lemma SameTable(s: State, t: State)
    requires TableOk(s) && t.table == s.table && t.subscriptions == s.subscriptions
    ensures TableOk(t)
  {
  }

  lemma ReturnedLater(s: State, u: State, bars: seq<ChartBar>)
    requires Later(s, u) && !s.destroyed && !s.invalidated
    ensures Later(s, u.(returned := u.returned + [bars]))
  {
  }

  /** No subscription but one receives anything between s and u. */
  ghost predicate OnlyTo(s: State, u: State, sub: nat) {
    && |u.table| == |s.table|
    && forall k :: 0 <= k < |s.table| && k != sub ==> u.table[k] == s.table[k]
  }

  lemma FetchLanded(s: State, u: State, id: nat, sub: nat)
    requires FetchesOk(s) && Polls(s, id, sub) && OnlyTo(s, u, sub)
    requires u.fetches == s.fetches - {id} && u.nextFetch == s.nextFetch && !u.table[sub].inFlight
    ensures FetchesOk(u)
  {
    assert forall x: nat, k: nat :: Polls(u, x, k) <==> Polls(s, x, k) && x != id;
    forall k | 0 <= k < |u.table| && u.table[k].inFlight ensures exists x: nat :: Polls(u, x, k) {
      var x: nat :| Polls(s, x, k);
      assert Polls(u, x, k);
    }
  }

  /** A poll request leaves, y has read its answer, and b is the subscription after it. */
  lemma Landed(s: State, id: nat, sub: nat, y: State, b: Sub)
    requires Sound(s) && Polls(s, id, sub) && Reads(s.(fetches := s.fetches - {id}), y)
    requires SubOk(b) && SameSub(s.table[sub], b)
    requires s.destroyed || s.invalidated ==> b.delivered == s.table[sub].delivered
    ensures var u := Land(y.(table := y.table[sub := b]), sub);
            Sound(u) && Later(s, u) && OnlyTo(s, u, sub) && u.returned == s.returned
              && u.table[sub].delivered == b.delivered
  {
    hide SubOk, NotBefore;
    var c := b.(inFlight := false);
    SameFeedOk(b, c);
    var u := Land(y.(table := y.table[sub := b]), sub);
    assert u.table == s.table[sub := c];
    FetchLanded(s, u, id, sub);
    hide FetchesOk, Polls;
  }

  lemma PollArrives(s: State, m: Market, id: nat, r: Response, now: int)
    requires Sound(s) && id in s.fetches && s.fetches[id].Poll? && Polls(s, id, s.fetches[id].sub)
    ensures var sub, u := s.fetches[id].sub, Resolve(s, m, id, r, now);
      && Sound(u) && Later(s, u) && OnlyTo(s, u, sub) && u.returned == s.returned
      && (Get(s.subscriptions, s.fetches[id].tf) != Some(sub) || s.destroyed || s.invalidated ==> Undelivered(s, u))
  {
    hide SubOk, FetchesOk, Reads, Accept, NotBefore, Later, TableOk, Complain, Invalidate, Deliver, Sound;
    var f, t := s.fetches[id], s.(fetches := s.fetches - {id});
    SoundParts(s, id, f.sub);
    assert CallsOk(t);
    NotifyReads(t, t.feed);
    var b := s.table[f.sub];
    Landed(s, id, f.sub, t, b);
    Landed(s, id, f.sub, Complain(t), b);
    assert t.table[f.sub := b] == t.table;
    if r.Answered? && !t.destroyed && Get(t.subscriptions, f.tf) == Some(f.sub) {
      var (y, a) := Accept(t, m, r.payload, f.tf, true, f.baseline, now);
      AcceptReads(t, m, r.payload, f.tf, true, f.baseline, now);
      ReadsCalls(t, y);
      if a.Refused? {
        NotifyReads(y, y.feed);
        ReadsThen(t, y, Complain(y));
        Landed(s, id, f.sub, Complain(y), b);
      } else {
        InvalidateReads(y);
        ReadsThen(t, y, Invalidate(y));
        Landed(s, id, f.sub, Invalidate(y), b);
        DeliverOk(b, a.bars);
        Landed(s, id, f.sub, y, Deliver(b, a.bars));
      }
    }
  }

  lemma SoundParts(s: State, id: nat, sub: nat)
    requires Sound(s) && Polls(s, id, sub)
    ensures sub < |s.table|
    ensures CallsOk(s) && SubOk(s.table[sub]) && SameSub(s.table[sub], s.table[sub])
  {
  }

  // ---------- every run ----------

  lemma LoadSafe(s: State, m: Market, ticker: string, timeframe: string, latestRead: bool)
    requires Sound(s)
    ensures Quiet(s, LoadIn(s, m, ticker, timeframe, latestRead))
  {
    NothingHappens(s);
    hide Sound, Later, Undelivered, StartPage, CallPage;
    match CallPage(m, ticker, timeframe) {
      case Requested(tf) => PageQuiet(s, tf, latestRead);
      case _ =>
    }
  }

  lemma JoinSafe(s: State, m: Market, ticker: string, timeframe: string, callback: int, now: int)
    requires Sound(s)
    ensures Quiet(s, JoinIn(s, m, ticker, timeframe, callback, now))
  {
    NothingHappens(s);
    hide Sound, Later, Undelivered, Subscribe, CallJoin;
    match CallJoin(m, ticker, timeframe) {
      case Joined(tf) => JoinQuiet(s, tf, callback, now);
      case _ =>
    }
  }

  lemma CallSafe(s: State, m: Market, op: Op)
    requires Sound(s) && !op.Arrive?
    ensures Quiet(s, Apply(s, m, op))
  {
    hide Sound, Quiet, LoadIn, JoinIn, StartPoll, Unsubscribe, Destroy;
    match op {
      case LoadPage(ticker, timeframe, latestRead) => LoadSafe(s, m, ticker, timeframe, latestRead);
      case Tick(tf, now) => StartPollQuiet(s, tf, now);
      case Join(ticker, timeframe, callback, now) => JoinSafe(s, m, ticker, timeframe, callback, now);
      case Leave(tf, callback) => LeaveQuiet(s, tf, callback);
      case Close => CloseQuiet(s);
    }
  }

  lemma AnswerSafe(s: State, m: Market, id: nat, r: Response, now: int)
    requires Sound(s)
    ensures var u := ArriveIn(s, m, id, r, now);
            && Sound(u) && Later(s, u)
            && (id in s.fetches && s.fetches[id].Poll? ==>
                  var sub := s.fetches[id].sub;
                  && OnlyTo(s, u, sub) && u.returned == s.returned
                  && (Get(s.subscriptions, s.fetches[id].tf) != Some(sub) ==> Undelivered(s, u)))
            && (id in s.fetches && s.fetches[id].Page? ==> Undelivered(s, u))
  {
    hide Sound, Later, Undelivered, OnlyTo, Resolve;
    if id in s.fetches {
      if s.fetches[id].Poll? {
        assert Polls(s, id, s.fetches[id].sub);
        PollArrives(s, m, id, r, now);
      } else {
        PageArrives(s, m, id, r, now);
      }
    } else {
      NothingHappens(s);
    }
  }

  /** One step, whatever it is. Only an answered poll of the subscription in
      force on a live provider can deliver; only an answered page can return. */
  lemma StepSafe(s: State, m: Market, op: Op)
    requires Sound(s)
    ensures Sound(Apply(s, m, op)) && Later(s, Apply(s, m, op))
    ensures !op.Arrive? ==> Undelivered(s, Apply(s, m, op)) && Apply(s, m, op).returned == s.returned
    ensures op.Arrive? && op.id in s.fetches && s.fetches[op.id].Poll? ==>
              var sub := s.fetches[op.id].sub;
              && OnlyTo(s, Apply(s, m, op), sub) && Apply(s, m, op).returned == s.returned
              && (Get(s.subscriptions, s.fetches[op.id].tf) != Some(sub) ==> Undelivered(s, Apply(s, m, op)))
    ensures op.Arrive? && op.id in s.fetches && s.fetches[op.id].Page? ==> Undelivered(s, Apply(s, m, op))
  {
    hide Sound, Later, Undelivered, OnlyTo, LoadIn, JoinIn, ArriveIn, StartPoll, Unsubscribe, Destroy;
    if op.Arrive? {
      AnswerSafe(s, m, op.id, op.r, op.now);
    } else {
      CallSafe(s, m, op);
    }
  }

  function After(m: Market, ops: seq<Op>): (s: State)
    ensures Sound(s)
  {
    if ops == [] then FRESH
    else
      var before := After(m, ops[..|ops| - 1]);
      StepSafe(before, m, ops[|ops| - 1]);
      Apply(before, m, ops[|ops| - 1])
  }

  /** Delivery order in every reachable state: each subscription's bars are in
      time order, never repeat the one before, never precede the tail it started
      from, and it has at most one open request, exactly while it is in flight. */
  lemma DeliveryOrder(m: Market, ops: seq<Op>, k: nat)
    requires k < |After(m, ops).table|
    ensures SubOk(After(m, ops).table[k])
    ensures After(m, ops).table[k].inFlight <==> exists id: nat :: Polls(After(m, ops), id, k)
    ensures forall a: nat, b: nat :: Polls(After(m, ops), a, k) && Polls(After(m, ops), b, k) ==> a == b
  {
    var s := After(m, ops);
    hide After, SubOk;
  }

  /** Revision safety in every run: cutoffs and latest times never go back,
      invalidation and destruction are final, bars already handed out stay handed
      out, and nothing is returned or delivered from a step that starts after
      either; the revision callback fires at most once, exactly on invalidation. */
  lemma {:induction false} RevisionSafety(m: Market, ops: seq<Op>, n: nat)
    requires n <= |ops|
    ensures Later(After(m, ops[..n]), After(m, ops))
    ensures After(m, ops).revisionCalls == if After(m, ops).invalidated then 1 else 0
    decreases |ops|
  {
    hide Later, Apply;
    if n == |ops| {
      assert ops[..n] == ops;
      NothingHappens(After(m, ops));
    } else {
      var init := ops[..|ops| - 1];
      assert init[..n] == ops[..n];
      RevisionSafety(m, init, n);
      StepSafe(After(m, init), m, ops[|ops| - 1]);
      LaterThen(After(m, ops[..n]), After(m, init), After(m, ops));
    }
    hide SubOk, FetchesOk;
  }
}
