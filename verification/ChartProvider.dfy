/** The chart data provider as a state machine. Each method is one synchronous
    stretch of the source between awaits; host callbacks do not re-enter it. A
    subscription object is an index into a table, so that a replaced one keeps
    its own state. */
module ChartProvider {
  import opened Common
  import opened ChartCandles

  datatype Revision = Revision(hash: string, cutoff: Option<int>)

  /** delivered and tail are history: every bar handed to the callbacks, and the
      latest known bar time when the subscription was made. */
  datatype Sub = Sub(
    tf: Timeframe,
    callbacks: set<int>,
    inFlight: bool,
    lastSignature: Option<Signature>,
    lastTime: Option<int>,
    tail: Option<int>,
    delivered: seq<ChartBar>)

  /** A request that has not been answered; baseline is what it was sent with. */
  datatype Fetch =
    | Page(tf: Timeframe, latestRead: bool, baseline: Option<Revision>)
    | Poll(tf: Timeframe, sub: nat, baseline: Option<Revision>)

  datatype Response = Rejected | Answered(payload: Payload)

  /** The fields of the provider, its open requests, and the history of page
      results, revision callbacks and state notifications. */
  datatype State = State(
    subscriptions: map<Timeframe, nat>,
    table: seq<Sub>,
    destroyed: bool,
    invalidated: bool,
    revisions: map<Timeframe, Revision>,
    latest: map<Timeframe, int>,
    feed: Feed,
    fetches: map<nat, Fetch>,
    nextFetch: nat,
    returned: seq<seq<ChartBar>>,
    revisionCalls: nat,
    notified: seq<Status>)

  const FRESH := State(map[], [], false, false, map[], map[], Feed(Loading, None, 0.0), map[], 0, [], 0, [])

  datatype Market = Market(exchange: string, symbol: string)

  datatype Accepted = Refused | Accepted(bars: seq<ChartBar>)

  function Get<K, V>(m: map<K, V>, k: K): Option<V> {
    if k in m then Some(m[k]) else None
  }

  /** The parts of the state that reading a payload leaves alone. */
  predicate Untouched(s: State, t: State) {
    && t.table == s.table && t.subscriptions == s.subscriptions && t.destroyed == s.destroyed
    && t.fetches == s.fetches && t.nextFetch == s.nextFetch && t.returned == s.returned
  }

  // ---------- pieces of a step ----------

  function Notify(s: State, feed: Feed): (t: State)
    ensures Untouched(s, t)
  {
    if s.destroyed then s else s.(feed := feed, notified := s.notified + [feed.status])
  }

  function Invalidate(s: State): (t: State)
    ensures Untouched(s, t)
  {
    var u := Notify(s.(invalidated := true), s.feed.(status := Reloading));
    u.(revisionCalls := u.revisionCalls + 1)
  }

  predicate Identified(m: Market, p: Payload, tf: Timeframe) {
    && p.exchange == m.exchange
    && p.timeframe == tf
    && Canonical(p.symbol) == Canonical(m.symbol)
    && p.canonicalPolicy
    && p.revision != ""
  }

  /** null counts as before every cutoff. */
  predicate NotBefore(a: Option<int>, b: Option<int>) {
    b.None? || (a.Some? && a.value >= b.value)
  }

  predicate Repaired(p: Payload, baseline: Option<Revision>) {
    baseline.Some? && p.previousRevision.Some? && baseline.value.hash != p.previousRevision.value
  }

  /** The revision is stored before the candles are checked. */
  function StoreRevision(s: State, p: Payload, tf: Timeframe, latestRead: bool): (t: State)
    ensures Untouched(s, t)
  {
    var prior := Get(s.revisions, tf);
    if prior.None? || (latestRead && NotBefore(p.cutoff, prior.value.cutoff))
    then s.(revisions := s.revisions[tf := Revision(p.revision, p.cutoff)])
    else s
  }

  function StoreLatest(s: State, bars: seq<ChartBar>, tf: Timeframe): (t: State)
    ensures Untouched(s, t)
  {
    if bars == [] then s
    else
      var time := bars[|bars| - 1].time;
      s.(latest := s.latest[tf := if tf in s.latest && s.latest[tf] > time then s.latest[tf] else time])
  }

  function Accept(s: State, m: Market, p: Payload, tf: Timeframe, latestRead: bool, baseline: Option<Revision>,
                  now: int): (r: (State, Accepted))
    ensures Untouched(s, r.0)
  {
    if s.destroyed || s.invalidated then (s, Refused)
    else if p.error then (s, Refused)
    else if !Identified(m, p, tf) then (s, Refused)
    else if Repaired(p, baseline) then (Invalidate(s), Refused)
    else
      var t := StoreRevision(s, p, tf, latestRead);
      match Unique(p.candles)
      case Bad(_) => (t, Refused)
      case Good(bars) =>
        var u := StoreLatest(t, bars, tf);
        (if latestRead || tf !in s.revisions then Notify(u, FeedState(p, now)) else u, Accepted(bars))
  }

  /** One bar offered to a subscription. */
  function Offer(b: Sub, bar: ChartBar): Sub {
    if b.lastTime.Some? && bar.time < b.lastTime.value then b
    else if b.lastSignature == Some(SignatureOf(bar)) then b
    else b.(lastSignature := Some(SignatureOf(bar)), lastTime := Some(bar.time), delivered := b.delivered + [bar])
  }

  function Deliver(b: Sub, bars: seq<ChartBar>): Sub {
    if bars == [] then b else Offer(Deliver(b, bars[..|bars| - 1]), bars[|bars| - 1])
  }

  function Land(s: State, id: nat): State
    requires id < |s.table|
  {
    s.(table := s.table[id := s.table[id].(inFlight := false)])
  }

  /** A failed poll shows an error unless a reload is already under way. */
  function Complain(s: State): (t: State)
    ensures Untouched(s, t)
  {
    if s.invalidated then s else Notify(s, s.feed.(status := Failed))
  }

  // ---------- the steps ----------

  /** The supported timeframes by name. */
  function ChartTimeframe(raw: string): Option<Timeframe> {
    if raw == "1m" then Some(M1)
    else if raw == "5m" then Some(M5)
    else if raw == "15m" then Some(M15)
    else if raw == "1h" then Some(H1)
    else if raw == "4h" then Some(H4)
    else None
  }

  predicate SameMarket(m: Market, ticker: string) {
    Canonical(ticker) == Canonical(m.symbol)
  }

  /** What a page call comes to at once: another market's page is empty, and only then
      does an unsupported timeframe matter. */
  datatype PageCall = EmptyPage | UnsupportedPage | Requested(tf: Timeframe)

  function CallPage(m: Market, ticker: string, raw: string): PageCall {
    if !SameMarket(m, ticker) then EmptyPage
    else if ChartTimeframe(raw).None? then UnsupportedPage
    else Requested(ChartTimeframe(raw).value)
  }

  /** What a subscription call comes to: the timeframe is looked at first. */
  datatype JoinCall = UnsupportedTimeframe | MarketMismatch | Joined(tf: Timeframe)

  function CallJoin(m: Market, ticker: string, raw: string): JoinCall {
    if ChartTimeframe(raw).None? then UnsupportedTimeframe
    else if !SameMarket(m, ticker) then MarketMismatch
    else Joined(ChartTimeframe(raw).value)
  }

  function StartPage(s: State, tf: Timeframe, latestRead: bool): State {
    s.(fetches := s.fetches[s.nextFetch := Page(tf, latestRead, Get(s.revisions, tf))], nextFetch := s.nextFetch + 1)
  }

  function StartPoll(s: State, tf: Timeframe, now: int): State
    requires tf in s.subscriptions ==> s.subscriptions[tf] < |s.table|
  {
    if s.destroyed || s.invalidated || tf !in s.subscriptions || s.table[s.subscriptions[tf]].callbacks == {} then s
    else
      var id := s.subscriptions[tf];
      var late := s.feed.lastSuccess.Some? && s.feed.lastSuccess.value != 0 && now - s.feed.lastSuccess.value > 30000;
      var t := if late then Notify(s, s.feed.(status := Stale)) else s;
      if t.table[id].inFlight then t
      else
        t.(table := t.table[id := t.table[id].(inFlight := true)],
           fetches := t.fetches[t.nextFetch := Poll(tf, id, Get(t.revisions, tf))],
           nextFetch := t.nextFetch + 1)
  }

  function Subscribe(s: State, tf: Timeframe, callback: int, now: int): State
    requires tf in s.subscriptions ==> s.subscriptions[tf] < |s.table|
  {
    if tf in s.subscriptions then
      var id := s.subscriptions[tf];
      s.(table := s.table[id := s.table[id].(callbacks := s.table[id].callbacks + {callback})])
    else
      var tail := Get(s.latest, tf);
      var sub := Sub(tf, {callback}, false, None, tail, tail, []);
      StartPoll(s.(subscriptions := s.subscriptions[tf := |s.table|], table := s.table + [sub]), tf, now)
  }

  function Unsubscribe(s: State, tf: Timeframe, callback: int): State
    requires tf in s.subscriptions ==> s.subscriptions[tf] < |s.table|
  {
    if tf !in s.subscriptions then s
    else
      var id := s.subscriptions[tf];
      var left := s.table[id].callbacks - {callback};
      var t := s.(table := s.table[id := s.table[id].(callbacks := left)]);
      if left == {} then t.(subscriptions := t.subscriptions - {tf}) else t
  }

  function Destroy(s: State): State {
    s.(destroyed := true, subscriptions := map[])
  }

  function ResolvePage(s: State, m: Market, f: Fetch, r: Response, now: int): State
    requires f.Page?
  {
    if r.Rejected? then s
    else
      var (t, a) := Accept(s, m, r.payload, f.tf, f.latestRead, f.baseline, now);
      if a.Refused? then t else t.(returned := t.returned + [a.bars])
  }

  /** A poll answer for the current subscription of a live provider. */
  function Answer(s: State, m: Market, f: Fetch, p: Payload, now: int): (t: State)
    requires f.Poll? && f.sub < |s.table|
    ensures |t.table| == |s.table| && t.subscriptions == s.subscriptions && t.fetches == s.fetches
    ensures t.nextFetch == s.nextFetch
  {
    var (t, a) := Accept(s, m, p, f.tf, true, f.baseline, now);
    if a.Refused? then Complain(t)
    else if p.truncated && t.table[f.sub].lastTime.Some? then Invalidate(t)
    else t.(table := t.table[f.sub := Deliver(t.table[f.sub], a.bars)])
  }

  function ResolvePoll(s: State, m: Market, f: Fetch, r: Response, now: int): (t: State)
    requires f.Poll? && f.sub < |s.table|
    ensures |t.table| == |s.table| && t.subscriptions == s.subscriptions && t.fetches == s.fetches
    ensures t.nextFetch == s.nextFetch
  {
    if r.Rejected? then Land(Complain(s), f.sub)
    else if s.destroyed || Get(s.subscriptions, f.tf) != Some(f.sub) then Land(s, f.sub)
    else Land(Answer(s, m, f, r.payload, now), f.sub)
  }

  function Resolve(s: State, m: Market, id: nat, r: Response, now: int): State
    requires id in s.fetches && (s.fetches[id].Poll? ==> s.fetches[id].sub < |s.table|)
  {
    var f := s.fetches[id];
    var t := s.(fetches := s.fetches - {id});
    if f.Page? then ResolvePage(t, m, f, r, now) else ResolvePoll(t, m, f, r, now)
  }

  // ---------- the class ----------

  class VnedgeDataProvider {
    const market: Market
    var subscriptions: map<Timeframe, nat>
    var table: seq<Sub>
    var destroyed: bool
    var invalidated: bool
    var revisions: map<Timeframe, Revision>
    var latest: map<Timeframe, int>
    var feed: Feed
    var fetches: map<nat, Fetch>
    var nextFetch: nat
    var returned: seq<seq<ChartBar>>
    var revisionCalls: nat
    var notified: seq<Status>

    function Snapshot(): State
      reads this
    {
      State(subscriptions, table, destroyed, invalidated, revisions, latest, feed, fetches, nextFetch, returned,
            revisionCalls, notified)
    }

    ghost predicate Indexed()
      reads this
    {
      && (forall tf :: tf in subscriptions ==> subscriptions[tf] < |table|)
      && (forall id :: id in fetches && fetches[id].Poll? ==> fetches[id].sub < |table|)
    }

    constructor (market: Market)
      ensures this.market == market && Snapshot() == FRESH && Indexed()
    {
      this.market := market;
      subscriptions, table, destroyed, invalidated := map[], [], false, false;
      revisions, latest, feed := map[], map[], Feed(Loading, None, 0.0);
      fetches, nextFetch, returned, revisionCalls, notified := map[], 0, [], 0, [];
    }

    method NotifyState(f: Feed)
      modifies this`feed, this`notified
      ensures Snapshot() == Notify(old(Snapshot()), f)
    {
      if !destroyed {
        feed := f;
        notified := notified + [f.status];
      }
    }

    method InvalidateCache()
      modifies this`feed, this`notified, this`invalidated, this`revisionCalls
      ensures Snapshot() == Invalidate(old(Snapshot()))
    {
      invalidated := true;
      NotifyState(feed.(status := Reloading));
      revisionCalls := revisionCalls + 1;
    }

    method RememberRevision(p: Payload, tf: Timeframe, latestRead: bool)
      modifies this`revisions
      ensures Snapshot() == StoreRevision(old(Snapshot()), p, tf, latestRead)
    {
      var prior := Get(revisions, tf);
      if prior.None? || (latestRead && NotBefore(p.cutoff, prior.value.cutoff)) {
        revisions := revisions[tf := Revision(p.revision, p.cutoff)];
      }
    }

    method RememberLatest(bars: seq<ChartBar>, tf: Timeframe)
      modifies this`latest
      ensures Snapshot() == StoreLatest(old(Snapshot()), bars, tf)
    {
      if bars != [] {
        var time := bars[|bars| - 1].time;
        latest := latest[tf := if tf in latest && latest[tf] > time then latest[tf] else time];
      }
    }

    method AcceptPayload(p: Payload, tf: Timeframe, latestRead: bool, baseline: Option<Revision>, now: int)
      returns (a: Accepted)
      modifies this`feed, this`notified, this`invalidated, this`revisionCalls, this`revisions, this`latest
      ensures (Snapshot(), a) == Accept(old(Snapshot()), market, p, tf, latestRead, baseline, now)
    {
      hide Identified, Unique, FeedState, Notify, Invalidate, StoreRevision, StoreLatest, Repaired;
      if destroyed || invalidated || p.error || !Identified(market, p, tf) {
        return Refused;
      }
      if Repaired(p, baseline) {
        InvalidateCache();
        return Refused;
      }
      var first := tf !in revisions;
      RememberRevision(p, tf, latestRead);
      var u := OrderedUnique(p.candles);
      if u.Bad? {
        return Refused;
      }
      RememberLatest(u.bars, tf);
      if latestRead || first {
        NotifyState(FeedState(p, now));
      }
      a := Accepted(u.bars);
    }

    method GetBars(ticker: string, timeframe: string, latestRead: bool) returns (call: PageCall)
      requires Indexed()
      modifies this`fetches, this`nextFetch
      ensures call == CallPage(market, ticker, timeframe) && Indexed()
      ensures Snapshot() == if call.Requested? then StartPage(old(Snapshot()), call.tf, latestRead) else old(Snapshot())
    {
      if Canonical(ticker) != Canonical(market.symbol) {
        return EmptyPage;
      }
      var tf := ChartTimeframe(timeframe);
      if tf.None? {
        return UnsupportedPage;
      }
      fetches := fetches[nextFetch := Page(tf.value, latestRead, Get(revisions, tf.value))];
      nextFetch := nextFetch + 1;
      return Requested(tf.value);
    }

    method PollTick(tf: Timeframe, now: int)
      requires Indexed()
      modifies this`feed, this`notified, this`table, this`fetches, this`nextFetch
      ensures Snapshot() == StartPoll(old(Snapshot()), tf, now) && Indexed()
    {
      if destroyed || invalidated || tf !in subscriptions || table[subscriptions[tf]].callbacks == {} {
        return;
      }
      var id := subscriptions[tf];
      if feed.lastSuccess.Some? && feed.lastSuccess.value != 0 && now - feed.lastSuccess.value > 30000 {
        NotifyState(feed.(status := Stale));
      }
      if table[id].inFlight {
        return;
      }
      table := table[id := table[id].(inFlight := true)];
      fetches := fetches[nextFetch := Poll(tf, id, Get(revisions, tf))];
      nextFetch := nextFetch + 1;
    }

    method SubscribeBars(ticker: string, timeframe: string, callback: int, now: int) returns (call: JoinCall)
      requires Indexed()
      modifies this
      ensures call == CallJoin(market, ticker, timeframe) && Indexed()
      ensures Snapshot() == if call.Joined? then Subscribe(old(Snapshot()), call.tf, callback, now) else old(Snapshot())
    {
      if ChartTimeframe(timeframe).None? {
        return UnsupportedTimeframe;
      }
      var tf := ChartTimeframe(timeframe).value;
      if Canonical(ticker) != Canonical(market.symbol) {
        return MarketMismatch;
      }
      if tf in subscriptions {
        var id := subscriptions[tf];
        table := table[id := table[id].(callbacks := table[id].callbacks + {callback})];
      } else {
        var tail := Get(latest, tf);
        subscriptions := subscriptions[tf := |table|];
        table := table + [Sub(tf, {callback}, false, None, tail, tail, [])];
        PollTick(tf, now);
      }
      return Joined(tf);
    }

    method UnsubscribeBars(tf: Timeframe, callback: int)
      requires Indexed()
      modifies this`table, this`subscriptions
      ensures Snapshot() == Unsubscribe(old(Snapshot()), tf, callback) && Indexed()
    {
      if tf !in subscriptions {
        return;
      }
      var id := subscriptions[tf];
      table := table[id := table[id].(callbacks := table[id].callbacks - {callback})];
      if table[id].callbacks == {} {
        subscriptions := subscriptions - {tf};
      }
    }

    method DeliverBars(id: nat, bars: seq<ChartBar>)
      requires id < |table|
      modifies this`table
      ensures table == old(table)[id := Deliver(old(table)[id], bars)]
    {
      for k := 0 to |bars|
        invariant table == old(table)[id := Deliver(old(table)[id], bars[..k])]
      {
        var bar, current := bars[k], table[id];
        assert bars[..k + 1][..k] == bars[..k];
        if current.lastTime.Some? && bar.time < current.lastTime.value {
          continue;
        }
        var signature := SignatureOf(bar);
        if current.lastSignature == Some(signature) {
          continue;
        }
        table := table[id := current.(lastSignature := Some(signature), lastTime := Some(bar.time),
                                      delivered := current.delivered + [bar])];
      }
      assert bars[..|bars|] == bars;
    }

    method PageArrives(id: nat, r: Response, now: int)
      requires Indexed() && id in fetches && fetches[id].Page?
      modifies this
      ensures Snapshot() == Resolve(old(Snapshot()), market, id, r, now) && Indexed()
    {
      hide Accept;
      var f := fetches[id];
      fetches := fetches - {id};
      if r.Answered? {
        var a := AcceptPayload(r.payload, f.tf, f.latestRead, f.baseline, now);
        if a.Accepted? {
          returned := returned + [a.bars];
        }
      }
    }

    method ShowFailure()
      modifies this`feed, this`notified
      ensures Snapshot() == Complain(old(Snapshot()))
    {
      if !invalidated {
        NotifyState(feed.(status := Failed));
      }
    }

    method HandleAnswer(f: Fetch, p: Payload, now: int)
      requires f.Poll? && f.sub < |table|
      modifies this
      ensures Snapshot() == Answer(old(Snapshot()), market, f, p, now)
    {
      hide Accept, Complain, Invalidate, Deliver;
      var a := AcceptPayload(p, f.tf, true, f.baseline, now);
      if a.Refused? {
        ShowFailure();
      } else if p.truncated && table[f.sub].lastTime.Some? {
        InvalidateCache();
      } else {
        DeliverBars(f.sub, a.bars);
      }
    }

    method PollArrives(id: nat, r: Response, now: int)
      requires Indexed() && id in fetches && fetches[id].Poll?
      modifies this
      ensures Snapshot() == Resolve(old(Snapshot()), market, id, r, now) && Indexed()
    {
      hide Accept, Complain, Answer;
      var f := fetches[id];
      fetches := fetches - {id};
      if r.Rejected? {
        ShowFailure();
      } else if !destroyed && Get(subscriptions, f.tf) == Some(f.sub) {
        HandleAnswer(f, r.payload, now);
      }
      table := table[f.sub := table[f.sub].(inFlight := false)];
    }

    method DestroyProvider()
      requires Indexed()
      modifies this`destroyed, this`subscriptions
      ensures Snapshot() == Destroy(old(Snapshot())) && Indexed()
    {
      destroyed := true;
      subscriptions := map[];
    }
  }
}
