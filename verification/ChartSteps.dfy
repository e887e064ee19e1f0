/** Exactly when the chart provider asks, accepts, hands out and shows what. */
module ChartSteps {
  import opened Common
  import opened ChartCandles
  import opened ChartProvider
  import opened ChartProviderLaws

  // ---------- the feed state ----------

  /** The last bar closed, or else opened, more than its width and thirty seconds ago. */
  ghost predicate Late(p: Payload, now: int) {
    && p.candles != []
    && var last := p.candles[|p.candles| - 1];
    now > WidthMs(p.timeframe) + 30000
          + if last.closeTime.Some? then 1000 * last.closeTime.value
            else if last.time.Some? then 1000 * last.time.value else 0
  }

  ghost predicate Unproven(p: Payload) {
    exists c :: c in p.candles && (c.proof.None? || c.proof == Some(Unverified))
  }

  /** Lateness comes first, then a missing proof, then the last bar's own proof; a page
      without bars is empty unless the server calls it unverified. */
  lemma FeedExactly(p: Payload, now: int)
    ensures var status := FeedState(p, now).status;
            && (Late(p, now) ==> status == Stale)
            && (!Late(p, now) && Unproven(p) ==> status == Unverified)
            && (!Late(p, now) && !Unproven(p) && p.candles != [] ==>
                  p.candles[|p.candles| - 1].proof == Some(status))
            && (p.candles == [] ==> status == if p.unverified then Unverified else Empty)
    ensures FeedState(p, now).lastSuccess == Some(now)
  {
    hide GapSlots;
    var n := |p.candles|;
    if n > 0 {
      assert p.candles[n - 1] in p.candles;
    }
    assert forall k :: 0 <= k < n ==> p.candles[k] in p.candles;
  }

  /** Widths in minutes. */
  lemma WidthsInMinutes()
    ensures WidthMs(M5) == 5 * WidthMs(M1) == 5 * 60 * 1000 && WidthMs(M15) == 15 * WidthMs(M1)
    ensures WidthMs(H1) == 60 * WidthMs(M1) && WidthMs(H4) == 4 * WidthMs(H1)
  {
  }

  // ---------- reading ----------

  ghost predicate Live(s: State) {
    !s.destroyed && !s.invalidated
  }

  /** The payload is about this market and timeframe and names its revision. */
  ghost predicate Ours(m: Market, p: Payload, tf: Timeframe) {
    && !p.error && p.exchange == m.exchange && Canonical(p.symbol) == Canonical(m.symbol) && p.timeframe == tf
    && p.canonicalPolicy && p.revision != ""
  }

  /** The revision the request was sent with is not the one the server found. */
  ghost predicate Rewritten(p: Payload, baseline: Option<Revision>) {
    baseline.Some? && p.previousRevision.Some? && p.previousRevision.value != baseline.value.hash
  }

  /** An answer is accepted exactly by a live provider, when it is its own, was not
      rewritten and holds consistent candles, whose bars it then returns; a rewritten one
      invalidates the provider and calls for a reload. */
  lemma AcceptExactly(s: State, m: Market, p: Payload, tf: Timeframe, latestRead: bool, baseline: Option<Revision>,
                      now: int)
    ensures var (t, a) := Accept(s, m, p, tf, latestRead, baseline, now);
            && (a.Accepted? <==> Live(s) && Ours(m, p, tf) && !Rewritten(p, baseline) && Consistent(p.candles))
            && (a.Accepted? ==> StrictlyIncreasing(a.bars) && Represents(a.bars, p.candles))
            && (t.invalidated <==> s.invalidated || (Live(s) && Ours(m, p, tf) && Rewritten(p, baseline)))
            && t.revisionCalls == s.revisionCalls + if t.invalidated && !s.invalidated then 1 else 0
  {
    hide Canonical, FeedState, Consistent, StrictlyIncreasing, Represents, Unique, Notify, Invalidate, StoreRevision,
      StoreLatest;
    UniqueExactly(p.candles);
    InvalidateMarks(s);
    if Unique(p.candles).Good? {
      StoresMark(s, p, tf, latestRead, Unique(p.candles).bars, FeedState(p, now));
    } else {
      StoresMark(s, p, tf, latestRead, [], FeedState(p, now));
    }
  }

  lemma StoresMark(s: State, p: Payload, tf: Timeframe, latestRead: bool, bars: seq<ChartBar>, feed: Feed)
    ensures var t := StoreRevision(s, p, tf, latestRead);
            var u := StoreLatest(t, bars, tf);
            && t.invalidated == u.invalidated == Notify(u, feed).invalidated == s.invalidated
            && t.revisionCalls == u.revisionCalls == Notify(u, feed).revisionCalls == s.revisionCalls
  {
  }

  /** What an accepted answer leaves stored: the first revision or a later latest one,
      the newest bar time, and the feed shown for a latest or first read. */
  lemma AcceptedStores(s: State, m: Market, p: Payload, tf: Timeframe, latestRead: bool, baseline: Option<Revision>,
                       now: int)
    requires Accept(s, m, p, tf, latestRead, baseline, now).1.Accepted?
    ensures var (t, a) := Accept(s, m, p, tf, latestRead, baseline, now);
            && tf in t.revisions
            && (tf !in s.revisions || (latestRead && NotBefore(p.cutoff, s.revisions[tf].cutoff)) ==>
                  t.revisions[tf] == Revision(p.revision, p.cutoff))
            && (tf in s.revisions && !(latestRead && NotBefore(p.cutoff, s.revisions[tf].cutoff)) ==>
                  t.revisions[tf] == s.revisions[tf])
            && (a.bars != [] ==>
                  var time := a.bars[|a.bars| - 1].time;
                  tf in t.latest && t.latest[tf] >= time
                    && (t.latest[tf] == time || Get(s.latest, tf) == Some(t.latest[tf])))
            && (a.bars == [] ==> t.latest == s.latest)
            && (if latestRead || tf !in s.revisions
                then t.feed == FeedState(p, now) && t.notified == s.notified + [t.feed.status]
                else t.feed == s.feed && t.notified == s.notified)
  {
    hide Canonical, FeedState, Unique;
  }

  // ---------- asking ----------

  /** A tick asks exactly when the provider is live, someone listens and no request is
      open, and then for the timeframe, with the stored revision; a feed without success
      for thirty seconds is shown stale first. */
  lemma TickExactly(s: State, m: Market, tf: Timeframe, now: int)
    requires Sound(s)
    ensures var t := Apply(s, m, Tick(tf, now));
            var listened := Live(s) && tf in s.subscriptions && s.table[s.subscriptions[tf]].callbacks != {};
            && (t.nextFetch > s.nextFetch <==> listened && !s.table[s.subscriptions[tf]].inFlight)
            && (t.nextFetch > s.nextFetch ==>
                  && t.nextFetch == s.nextFetch + 1 && t.table[s.subscriptions[tf]].inFlight
                  && t.fetches == s.fetches[s.nextFetch := Poll(tf, s.subscriptions[tf], Get(s.revisions, tf))])
            && t.notified == s.notified
                             + if listened && s.feed.lastSuccess.Some? && s.feed.lastSuccess.value != 0
                                  && now - s.feed.lastSuccess.value > 30000
                               then [Stale] else []
  {
    hide FetchesOk, SubOk, Notify;
    NotifyAdds(s, s.feed.(status := Stale));
  }

  lemma NotifyAdds(s: State, feed: Feed)
    ensures var t := Notify(s, feed);
            && t.revisions == s.revisions && t.invalidated == s.invalidated
            && (!s.destroyed ==> t.notified == s.notified + [feed.status])
  {
  }

  /** A page call asks exactly for this market and a supported timeframe. */
  lemma LoadExactly(s: State, m: Market, ticker: string, timeframe: string, latestRead: bool)
    requires Sound(s)
    ensures var t := Apply(s, m, LoadPage(ticker, timeframe, latestRead));
            var tf := ChartTimeframe(timeframe);
            if Canonical(ticker) == Canonical(m.symbol) && tf.Some?
            then t == s.(fetches := s.fetches[s.nextFetch := Page(tf.value, latestRead, Get(s.revisions, tf.value))],
                         nextFetch := s.nextFetch + 1)
            else t == s
  {
    hide Canonical, ChartTimeframe, Sound;
  }

  // ---------- handing out ----------

  /** An answered page is handed out exactly when it is accepted. */
  lemma PageExactly(s: State, m: Market, id: nat, p: Payload, now: int)
    requires Sound(s) && id in s.fetches && s.fetches[id].Page?
    ensures var f, t := s.fetches[id], Apply(s, m, Arrive(id, Answered(p), now));
            var accepted := Live(s) && Ours(m, p, f.tf) && !Rewritten(p, f.baseline) && Consistent(p.candles);
            && id !in t.fetches
            && (if accepted then && |t.returned| == |s.returned| + 1 && t.returned[..|s.returned|] == s.returned
                                 && StrictlyIncreasing(t.returned[|s.returned|])
                                 && Represents(t.returned[|s.returned|], p.candles)
                else t.returned == s.returned)
  {
    hide Sound, Live, Ours, Rewritten, Consistent, StrictlyIncreasing, Represents, Accept;
    var f, u := s.fetches[id], s.(fetches := s.fetches - {id});
    AcceptExactly(u, m, p, f.tf, f.latestRead, f.baseline, now);
    SameLive(s, u);
  }

  lemma SameLive(s: State, t: State)
    requires s.destroyed == t.destroyed && s.invalidated == t.invalidated
    ensures Live(s) <==> Live(t)
  {
  }

  ghost predicate PollAccepted(s: State, m: Market, f: Fetch, p: Payload)
    requires f.Poll?
  {
    && Live(s) && Get(s.subscriptions, f.tf) == Some(f.sub)
    && Ours(m, p, f.tf) && !Rewritten(p, f.baseline) && Consistent(p.candles)
  }

  /** Bars of the page, in order, from some position on, were added to the deliveries. */
  ghost predicate Delivered(b: Sub, c: Sub, p: Payload) {
    exists bars, k: nat :: StrictlyIncreasing(bars) && Represents(bars, p.candles) && DeliversTo(b, c, bars, k)
  }

  lemma AnswerExactly(s: State, m: Market, f: Fetch, p: Payload, now: int)
    requires f.Poll? && f.sub < |s.table| && SubOk(s.table[f.sub]) && !s.destroyed
    requires Get(s.subscriptions, f.tf) == Some(f.sub)
    ensures var t := Answer(s, m, f, p, now);
            var cut := p.truncated && s.table[f.sub].lastTime.Some?;
            && |t.table| == |s.table|
            && (if PollAccepted(s, m, f, p) && !cut
                then Delivered(s.table[f.sub], t.table[f.sub].(inFlight := false), p)
                else t.table[f.sub].delivered == s.table[f.sub].delivered)
            && (PollAccepted(s, m, f, p) && cut ==> t.invalidated && t.revisionCalls == s.revisionCalls + 1)
  {
    hide Live, Ours, Rewritten, Consistent, StrictlyIncreasing, Represents, Accept, Deliver, Invalidate, Complain,
      Delivers, SubOk, DeliversTo;
    AcceptExactly(s, m, p, f.tf, true, f.baseline, now);
    var (t, a) := Accept(s, m, p, f.tf, true, f.baseline, now);
    InvalidateMarks(t);
    if a.Accepted? {
      LiveMeans(s);
      DeliversSuffix(s.table[f.sub], a.bars);
      var k: nat :| Delivers(s.table[f.sub], Deliver(s.table[f.sub], a.bars), a.bars, k);
      DeliversOn(s.table[f.sub], Deliver(s.table[f.sub], a.bars), a.bars, k);
    }
  }

  lemma LiveMeans(s: State)
    requires Live(s)
    ensures !s.destroyed && !s.invalidated
  {
  }

  /** A poll answer always closes its request. It delivers its accepted bars exactly to
      the subscription in force, unless it was cut short of a known tail, which
      invalidates the provider instead. */
  lemma PollExactly(s: State, m: Market, id: nat, p: Payload, now: int)
    requires Sound(s) && id in s.fetches && s.fetches[id].Poll? && Polls(s, id, s.fetches[id].sub)
    ensures var f, t := s.fetches[id], Apply(s, m, Arrive(id, Answered(p), now));
            && f.sub < |s.table| == |t.table| && !t.table[f.sub].inFlight && id !in t.fetches
            && var cut := p.truncated && s.table[f.sub].lastTime.Some?;
            && (if PollAccepted(s, m, f, p) && !cut then Delivered(s.table[f.sub], t.table[f.sub], p)
                else t.table[f.sub].delivered == s.table[f.sub].delivered)
            && (PollAccepted(s, m, f, p) && cut ==> t.invalidated && t.revisionCalls == s.revisionCalls + 1)
  {
    hide Answer, Live, Ours, Rewritten, Consistent, Delivered, SubOk, Complain, FetchesOk;
    var f, u := s.fetches[id], s.(fetches := s.fetches - {id});
    SoundParts(s, id, f.sub);
    SameLive(s, u);
    if !s.destroyed && Get(s.subscriptions, f.tf) == Some(f.sub) {
      AnswerExactly(u, m, f, p, now);
    } else {
      NotLive(s);
    }
  }

  lemma NotLive(s: State)
    ensures s.destroyed ==> !Live(s)
  {
  }

  /** The bars from position k on, all those after the stale or repeated ones. */
  ghost predicate DeliversTo(b: Sub, c: Sub, bars: seq<ChartBar>, k: nat) {
    k <= |bars| && c.delivered == b.delivered + bars[k..] && forall j :: 0 <= j < k ==> Skipped(b, bars[j])
  }

  lemma DeliversOn(b: Sub, c: Sub, bars: seq<ChartBar>, k: nat)
    requires Delivers(b, c, bars, k)
    ensures DeliversTo(b, c.(inFlight := false), bars, k)
  {
  }

  lemma InvalidateMarks(s: State)
    ensures Invalidate(s).invalidated && Invalidate(s).revisionCalls == s.revisionCalls + 1
  {
  }

  // ---------- subscribing ----------

  /** A first subscriber gets a subscription of its own, starting from the newest known
      time, and a request at once; a later one joins it. */
  lemma JoinExactly(s: State, m: Market, ticker: string, timeframe: string, callback: int, now: int)
    requires Sound(s) && Canonical(ticker) == Canonical(m.symbol) && ChartTimeframe(timeframe).Some?
    ensures var tf := ChartTimeframe(timeframe).value;
            var t := Apply(s, m, Join(ticker, timeframe, callback, now));
            && tf in t.subscriptions && t.subscriptions[tf] < |t.table|
            && callback in t.table[t.subscriptions[tf]].callbacks
            && (if tf in s.subscriptions then t.subscriptions == s.subscriptions && |t.table| == |s.table|
                else StartsAt(s, t, tf, callback))
  {
    hide SubOk, FetchesOk, Canonical, ChartTimeframe, StartPoll, StartsAt;
    var tf := ChartTimeframe(timeframe).value;
    if tf !in s.subscriptions {
      FirstStarts(s, tf, callback, now);
    }
  }

  ghost predicate StartsAt(s: State, t: State, tf: Timeframe, callback: int) {
    && |t.table| == |s.table| + 1 && Get(t.subscriptions, tf) == Some(|s.table|)
    && t.table[|s.table|].lastTime == Get(s.latest, tf) && t.table[|s.table|].callbacks == {callback}
    && (Live(s) ==> t.table[|s.table|].inFlight && t.nextFetch == s.nextFetch + 1)
  }

  lemma FirstStarts(s: State, tf: Timeframe, callback: int, now: int)
    requires tf !in s.subscriptions
    ensures StartsAt(s, Subscribe(s, tf, callback, now), tf, callback)
    ensures var t := Subscribe(s, tf, callback, now);
            && tf in t.subscriptions && t.subscriptions[tf] == |s.table| < |t.table|
            && callback in t.table[|s.table|].callbacks
  {
    hide Notify;
  }

  ghost predicate Left(s: State, t: State, tf: Timeframe, callback: int) {
    if tf !in s.subscriptions then t == s
    else
      var sub := s.subscriptions[tf];
      && sub < |s.table| == |t.table|
      && t.table[sub].callbacks == s.table[sub].callbacks - {callback}
      && (tf in t.subscriptions <==> s.table[sub].callbacks - {callback} != {})
      && forall x :: x != tf ==> Get(t.subscriptions, x) == Get(s.subscriptions, x)
  }

  /** The last to leave ends the subscription, and only that one. */
  lemma LeaveExactly(s: State, m: Market, tf: Timeframe, callback: int)
    requires Sound(s)
    ensures Left(s, Apply(s, m, Leave(tf, callback)), tf, callback)
  {
    hide SubOk, FetchesOk, Left;
    LeaveLeft(s, tf, callback);
  }

  lemma LeaveLeft(s: State, tf: Timeframe, callback: int)
    requires tf in s.subscriptions ==> s.subscriptions[tf] < |s.table|
    ensures Left(s, Unsubscribe(s, tf, callback), tf, callback)
  {
  }
}
