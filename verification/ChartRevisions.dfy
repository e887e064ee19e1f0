/** When the bars shown for one timeframe come from one history of the lake, although
    only the revision a request was sent with is ever compared. */
module ChartRevisions {
  import opened Common
  import opened ChartCandles
  import opened ChartProvider
  import opened ChartProviderLaws

  /** A lake as the server reads it: the hash of its rows up to a cutoff. */
  type Lake = int -> string

  /** The lake still has the rows the revision was taken from; without a cutoff there
      were none. */
  predicate Extends(lake: Lake, r: Option<Revision>) {
    r.Some? && r.value.cutoff.Some? ==> lake(r.value.cutoff.value) == r.value.hash
  }

  /** A server answering from the lake: its own revision, and its hash at the cutoff
      the request was sent with. */
  predicate Honest(lake: Lake, baseline: Option<Revision>, p: Payload) {
    && (p.cutoff.Some? ==> p.revision == lake(p.cutoff.value))
    && p.previousRevision
    == (if baseline.Some? && baseline.value.cutoff.Some? then Some(lake(baseline.value.cutoff.value)) else None)
  }

  /** Hashes do not collide: lakes with one hash have one past. */
  ghost predicate OnePast(a: Lake, b: Lake) {
    forall cutoff: int, earlier: int :: earlier <= cutoff && a(cutoff) == b(cutoff) ==> a(earlier) == b(earlier)
  }

  // ---------- one answer ----------

  /** The revision check tells exactly whether the lake extends the baseline sent. */
  lemma CheckedExactly(lake: Lake, baseline: Option<Revision>, p: Payload)
    requires Honest(lake, baseline, p)
    ensures Repaired(p, baseline) <==> !Extends(lake, baseline)
  {
  }

  predicate InForce(baseline: Option<Revision>, stored: Option<Revision>) {
    stored.None? || stored.value.cutoff.None? || baseline == stored
  }

  function EmptyPayload(m: Market, tf: Timeframe, previous: Option<string>): Payload {
    Payload(false, false, m.exchange, m.symbol, tf, true, "revision", previous, None, false, [])
  }

  /** Every accepted answer extends the stored revision exactly when the request was sent
      with that revision, or it covers no rows. */
  lemma GuardedExactly(s: State, m: Market, tf: Timeframe, latestRead: bool, baseline: Option<Revision>, now: int)
    requires !s.destroyed && !s.invalidated
    ensures (forall lake: Lake, p ::
               Honest(lake, baseline, p) && Accept(s, m, p, tf, latestRead, baseline, now).1.Accepted? ==>
                 Extends(lake, Get(s.revisions, tf)))
            <==> InForce(baseline, Get(s.revisions, tf))
  {
    var stored := Get(s.revisions, tf);
    forall lake: Lake, p |
      Honest(lake, baseline, p) && Accept(s, m, p, tf, latestRead, baseline, now).1.Accepted?
      ensures Extends(lake, baseline)
    {
      CheckedExactly(lake, baseline, p);
    }
    if !InForce(baseline, stored) {
      var other: Lake := x =>
        if baseline.Some? && baseline.value.cutoff == Some(x) then baseline.value.hash else stored.value.hash + "x";
      var previous :=
        if baseline.Some? && baseline.value.cutoff.Some? then Some(other(baseline.value.cutoff.value)) else None;
      var p := EmptyPayload(m, tf, previous);
      assert Honest(other, baseline, p) && Extends(other, baseline);
      CheckedExactly(other, baseline, p);
      EmptyAccepted(s, m, tf, previous, latestRead, baseline, now);
      assert !Extends(other, stored);
    }
  }

  lemma EmptyAccepted(s: State, m: Market, tf: Timeframe, previous: Option<string>, latestRead: bool,
                      baseline: Option<Revision>, now: int)
    requires !s.destroyed && !s.invalidated && !Repaired(EmptyPayload(m, tf, previous), baseline)
    ensures Accept(s, m, EmptyPayload(m, tf, previous), tf, latestRead, baseline, now).1.Accepted?
  {
    hide Canonical, FeedState;
    assert Unique([]).Good?;
  }

  /** What is stored stays, or becomes the answer's revision after the check, and then
      its cutoff does not go back. */
  predicate Moved(p: Payload, baseline: Option<Revision>, before: Option<Revision>, after: Option<Revision>) {
    || after == before
    || (!Repaired(p, baseline) && after == Some(Revision(p.revision, p.cutoff))
        && (before.Some? ==> NotBefore(p.cutoff, before.value.cutoff)))
  }

  lemma AcceptStores(s: State, m: Market, p: Payload, tf: Timeframe, latestRead: bool, baseline: Option<Revision>,
                     now: int, any: Timeframe)
    ensures var t := Accept(s, m, p, tf, latestRead, baseline, now).0;
            if any == tf then Moved(p, baseline, Get(s.revisions, tf), Get(t.revisions, tf))
            else Get(t.revisions, any) == Get(s.revisions, any)
    ensures Accept(s, m, p, tf, latestRead, baseline, now).1.Accepted? ==> !Repaired(p, baseline)
  {
    hide Identified, Unique, FeedState, Repaired, Notify, Invalidate, StoreLatest, Untouched;
    var t := StoreRevision(s, p, tf, latestRead);
    NotStoring(s, s.feed, [], tf);
    NotStoring(t, FeedState(p, now), [], tf);
    if Unique(p.candles).Good? {
      var bars := Unique(p.candles).bars;
      NotStoring(t, t.feed, bars, tf);
      NotStoring(StoreLatest(t, bars, tf), FeedState(p, now), [], tf);
    }
  }

  lemma NotStoring(s: State, feed: Feed, bars: seq<ChartBar>, tf: Timeframe)
    ensures Notify(s, feed).revisions == Invalidate(s).revisions == StoreLatest(s, bars, tf).revisions == s.revisions
  {
  }

  // ---------- one step ----------

  /** The step answers a request for the timeframe. */
  predicate AnswersFor(s: State, op: Op, tf: Timeframe) {
    op.Arrive? && op.r.Answered? && op.id in s.fetches && s.fetches[op.id].tf == tf
  }

  /** Bars reach the host in this step. */
  ghost predicate HandsOut(s: State, t: State) {
    t.returned != s.returned || !Undelivered(s, t)
  }

  lemma PageStores(s: State, m: Market, f: Fetch, r: Response, now: int, any: Timeframe)
    requires f.Page?
    ensures var t := ResolvePage(s, m, f, r, now);
            && (if r.Answered? && any == f.tf
                then Moved(r.payload, f.baseline, Get(s.revisions, any), Get(t.revisions, any))
                else Get(t.revisions, any) == Get(s.revisions, any))
            && (HandsOut(s, t) ==> r.Answered? && !Repaired(r.payload, f.baseline))
  {
    hide Accept, Repaired, Moved;
    if r.Answered? {
      AcceptStores(s, m, r.payload, f.tf, f.latestRead, f.baseline, now, any);
    }
  }

  lemma PollAnswerStores(s: State, m: Market, f: Fetch, p: Payload, now: int, any: Timeframe)
    requires f.Poll? && f.sub < |s.table|
    ensures var t := Answer(s, m, f, p, now);
            && (if any == f.tf then Moved(p, f.baseline, Get(s.revisions, any), Get(t.revisions, any))
                else Get(t.revisions, any) == Get(s.revisions, any))
            && (HandsOut(s, t) ==> !Repaired(p, f.baseline))
  {
    hide Accept, Repaired, Moved, Notify, Invalidate, Deliver;
    AcceptStores(s, m, p, f.tf, true, f.baseline, now, any);
    var t := Accept(s, m, p, f.tf, true, f.baseline, now).0;
    NotStoring(t, t.feed.(status := Failed), [], any);
  }

  lemma PollStores(s: State, m: Market, f: Fetch, r: Response, now: int, any: Timeframe)
    requires f.Poll? && f.sub < |s.table|
    ensures var t := ResolvePoll(s, m, f, r, now);
            && (if r.Answered? && any == f.tf
                then Moved(r.payload, f.baseline, Get(s.revisions, any), Get(t.revisions, any))
                else Get(t.revisions, any) == Get(s.revisions, any))
            && (HandsOut(s, t) ==> r.Answered? && !Repaired(r.payload, f.baseline))
  {
    hide Answer, Repaired, Notify;
    NotStoring(s, s.feed.(status := Failed), [], any);
    if r.Answered? {
      PollAnswerStores(s, m, f, r.payload, now, any);
    }
  }

  lemma AskingStoresNothing(s: State, tf: Timeframe, now: int)
    requires tf in s.subscriptions ==> s.subscriptions[tf] < |s.table|
    ensures StartPoll(s, tf, now).revisions == s.revisions
  {
    NotStoring(s, s.feed.(status := Stale), [], tf);
  }

  lemma JoinStoresNothing(s: State, m: Market, ticker: string, timeframe: string, callback: int, now: int)
    requires Sound(s)
    ensures JoinIn(s, m, ticker, timeframe, callback, now).revisions == s.revisions
  {
    hide CallJoin, StartPoll, FetchesOk, SubOk;
    match CallJoin(m, ticker, timeframe) {
      case Joined(tf) =>
        if tf !in s.subscriptions {
          var sub := Sub(tf, {callback}, false, None, Get(s.latest, tf), Get(s.latest, tf), []);
          AskingStoresNothing(s.(subscriptions := s.subscriptions[tf := |s.table|], table := s.table + [sub]), tf, now);
        }
      case _ =>
    }
  }

  lemma OnlyAnswersStore(s: State, m: Market, op: Op, tf: Timeframe)
    requires Sound(s) && !AnswersFor(s, op, tf)
    ensures Get(Apply(s, m, op).revisions, tf) == Get(s.revisions, tf)
  {
    hide CallPage, JoinIn, StartPoll, Resolve, FetchesOk, SubOk;
    match op {
      case Tick(polled, now) => AskingStoresNothing(s, polled, now);
      case Join(ticker, timeframe, callback, now) => JoinStoresNothing(s, m, ticker, timeframe, callback, now);
      case Arrive(id, r, now) => if id in s.fetches { ResolveStores(s, m, id, r, now, tf); }
      case _ =>
    }
  }

  lemma ResolveStores(s: State, m: Market, id: nat, r: Response, now: int, any: Timeframe)
    requires Sound(s) && id in s.fetches
    ensures var f, t := s.fetches[id], ArriveIn(s, m, id, r, now);
            && (if r.Answered? && any == f.tf
                then Moved(r.payload, f.baseline, Get(s.revisions, any), Get(t.revisions, any))
                else Get(t.revisions, any) == Get(s.revisions, any))
            && (HandsOut(s, t) ==> r.Answered? && !Repaired(r.payload, f.baseline))
  {
    hide ResolvePage, ResolvePoll, Moved, Repaired, SubOk;
    var f, t := s.fetches[id], s.(fetches := s.fetches - {id});
    if f.Page? {
      PageStores(t, m, f, r, now, any);
    } else {
      assert Polls(s, id, f.sub);
      PollStores(t, m, f, r, now, any);
    }
  }

  // ---------- every run ----------

  function Stored(m: Market, ops: seq<Op>, tf: Timeframe): Option<Revision> {
    Get(After(m, ops).revisions, tf)
  }

  /** Step k, if it answers a request for the timeframe, answers it from the given lake. */
  ghost predicate AnsweredFrom(m: Market, ops: seq<Op>, k: nat, lake: Lake, tf: Timeframe)
    requires k < |ops|
  {
    var s := After(m, ops[..k]);
    AnswersFor(s, ops[k], tf) ==> Honest(lake, s.fetches[ops[k].id].baseline, ops[k].r.payload)
  }

  /** Step k, if it answers a request for the timeframe, finds the revision stored that
      the request was sent with. */
  ghost predicate MeetsBaseline(m: Market, ops: seq<Op>, k: nat, tf: Timeframe)
    requires k < |ops|
  {
    var s := After(m, ops[..k]);
    AnswersFor(s, ops[k], tf) ==> InForce(s.fetches[ops[k].id].baseline, Get(s.revisions, tf))
  }

  /** The server answers every step from that step's lake, and no answer overtakes
      another. */
  ghost predicate Guarded(m: Market, ops: seq<Op>, lakes: seq<Lake>, tf: Timeframe) {
    && |lakes| >= |ops|
    && (forall j, k :: 0 <= j < |lakes| && 0 <= k < |lakes| ==> OnePast(lakes[j], lakes[k]))
    && (forall k: nat :: k < |ops| ==> AnsweredFrom(m, ops, k, lakes[k], tf) && MeetsBaseline(m, ops, k, tf))
  }

  lemma GuardedPrefix(m: Market, ops: seq<Op>, lakes: seq<Lake>, tf: Timeframe, n: nat)
    requires Guarded(m, ops, lakes, tf) && n <= |ops|
    ensures Guarded(m, ops[..n], lakes, tf)
  {
    hide OnePast;
    forall k: nat | k < n ensures AnsweredFrom(m, ops[..n], k, lakes[k], tf) && MeetsBaseline(m, ops[..n], k, tf) {
      assert ops[..n][..k] == ops[..k];
      assert AnsweredFrom(m, ops, k, lakes[k], tf) && MeetsBaseline(m, ops, k, tf);
    }
  }

  /** One answer: its lake extends what was stored if it gets past the check, and what is
      stored then; and a lake that extends the new revision extends the old one. */
  lemma LinkHolds(lake: Lake, other: Lake, p: Payload, baseline: Option<Revision>, before: Option<Revision>,
                  after: Option<Revision>)
    requires Honest(lake, baseline, p) && InForce(baseline, before) && !Repaired(p, baseline) && OnePast(other, lake)
    requires Moved(p, baseline, before, after)
    ensures Extends(lake, before) && Extends(lake, after)
    ensures Extends(other, after) ==> Extends(other, before)
  {
    CheckedExactly(lake, baseline, p);
  }

  lemma GuardedAt(m: Market, ops: seq<Op>, lakes: seq<Lake>, tf: Timeframe, i: nat)
    requires ops != [] && Guarded(m, ops, lakes, tf) && i < |lakes|
    ensures |lakes| >= |ops|
    ensures var k, s := |ops| - 1, After(m, ops[..|ops| - 1]);
            && OnePast(lakes[i], lakes[k])
            && (AnswersFor(s, ops[k], tf) ==>
                  && Honest(lakes[k], s.fetches[ops[k].id].baseline, ops[k].r.payload)
                  && InForce(s.fetches[ops[k].id].baseline, Get(s.revisions, tf)))
  {
    var k := |ops| - 1;
    assert AnsweredFrom(m, ops, k, lakes[k], tf) && MeetsBaseline(m, ops, k, tf);
    hide After, OnePast, Honest, InForce;
  }

  /** What a step does to the chain of stored revisions. */
  lemma StepLinks(m: Market, ops: seq<Op>, lakes: seq<Lake>, tf: Timeframe, i: nat)
    requires ops != [] && Guarded(m, ops, lakes, tf) && i < |lakes|
    ensures var init, k := ops[..|ops| - 1], |ops| - 1;
            && (Extends(lakes[i], Stored(m, ops, tf)) ==> Extends(lakes[i], Stored(m, init, tf)))
            && (AnswersFor(After(m, init), ops[k], tf) && HandsOut(After(m, init), After(m, ops)) ==>
                  Extends(lakes[k], Stored(m, init, tf)) && Extends(lakes[k], Stored(m, ops, tf)))
  {
    var init, k := ops[..|ops| - 1], |ops| - 1;
    var s, op := After(m, init), ops[k];
    GuardedAt(m, ops, lakes, tf, i);
    hide Guarded, AnswersFor, OnePast, Honest, InForce, Extends, ArriveIn, HandsOut, Sound, Repaired, NotBefore, Moved;
    if AnswersFor(s, op, tf) {
      ResolveStores(s, m, op.id, op.r, op.now, tf);
      var p, baseline := op.r.payload, s.fetches[op.id].baseline;
      if !Repaired(p, baseline) {
        LinkHolds(lakes[k], lakes[i], p, baseline, Stored(m, init, tf), Stored(m, ops, tf));
      }
    } else {
      OnlyAnswersStore(s, m, op, tf);
    }
  }

  /** A lake that extends the revision stored now extends every one stored before. */
  lemma {:induction false} ReachesBack(m: Market, ops: seq<Op>, lakes: seq<Lake>, tf: Timeframe, j: nat, i: nat)
    requires j <= |ops| && Guarded(m, ops, lakes, tf) && i < |lakes|
    requires Extends(lakes[i], Stored(m, ops, tf))
    ensures Extends(lakes[i], Stored(m, ops[..j], tf))
  {
    hide Guarded, Extends, Stored, HandsOut;
    if j == |ops| {
      assert ops[..j] == ops;
    } else {
      var init := ops[..|ops| - 1];
      GuardedPrefix(m, ops, lakes, tf, |ops| - 1);
      GuardedLength(m, ops, lakes, tf);
      StepLinks(m, ops, lakes, tf, i);
      assert init[..j] == ops[..j];
      ReachesBack(m, init, lakes, tf, j, i);
    }
  }

  lemma GuardedLength(m: Market, ops: seq<Op>, lakes: seq<Lake>, tf: Timeframe)
    requires Guarded(m, ops, lakes, tf)
    ensures |lakes| >= |ops|
  {
  }

  /** One history: over every run in which no answer overtakes another, a lake whose bars
      are handed out extends every revision of the timeframe stored up to then, its own
      included. */
  lemma OneHistory(m: Market, ops: seq<Op>, lakes: seq<Lake>, tf: Timeframe, j: nat)
    requires ops != [] && j <= |ops| && Guarded(m, ops, lakes, tf)
    requires var s := After(m, ops[..|ops| - 1]);
             AnswersFor(s, ops[|ops| - 1], tf) && HandsOut(s, After(m, ops))
    ensures Extends(lakes[|ops| - 1], Stored(m, ops[..j], tf))
  {
    hide Guarded, Extends, Stored, HandsOut, AnswersFor;
    GuardedLength(m, ops, lakes, tf);
    StepLinks(m, ops, lakes, tf, |ops| - 1);
    ReachesBack(m, ops, lakes, tf, j, |ops| - 1);
  }

  // ---------- when no answer overtakes another ----------

  /** Requests open after a step are the old ones, or new ones sent with the stored
      revision; numbers are never used twice. */
  ghost predicate SentWithStored(s: State, t: State) {
    && s.nextFetch <= t.nextFetch
    && forall id :: id in t.fetches ==>
         if id < s.nextFetch then id in s.fetches && t.fetches[id] == s.fetches[id]
         else id < t.nextFetch && t.fetches[id].baseline == Get(t.revisions, t.fetches[id].tf)
  }

  lemma PollSent(s: State, u: State, tf: Timeframe, now: int)
    requires FetchesOk(s) && u.fetches == s.fetches && u.nextFetch == s.nextFetch
    requires tf in u.subscriptions ==> u.subscriptions[tf] < |u.table|
    ensures SentWithStored(s, StartPoll(u, tf, now))
  {
    hide Polls;
    NotStoring(u, u.feed.(status := Stale), [], tf);
  }

  lemma JoinSent(s: State, m: Market, ticker: string, timeframe: string, callback: int, now: int)
    requires Sound(s)
    ensures SentWithStored(s, JoinIn(s, m, ticker, timeframe, callback, now))
  {
    hide CallJoin, StartPoll, SentWithStored, SubOk, Polls;
    NothingSent(s, s);
    match CallJoin(m, ticker, timeframe) {
      case Joined(tf) =>
        if tf in s.subscriptions {
          NothingSent(s, Subscribe(s, tf, callback, now));
        } else {
          var sub := Sub(tf, {callback}, false, None, Get(s.latest, tf), Get(s.latest, tf), []);
          PollSent(s, s.(subscriptions := s.subscriptions[tf := |s.table|], table := s.table + [sub]), tf, now);
        }
      case _ =>
    }
  }

  lemma NothingSent(s: State, t: State)
    requires FetchesOk(s) && t.nextFetch == s.nextFetch
    requires forall id :: id in t.fetches ==> id in s.fetches && t.fetches[id] == s.fetches[id]
    ensures SentWithStored(s, t)
  {
    hide Polls;
  }

  lemma ArriveSent(s: State, m: Market, id: nat, r: Response, now: int)
    requires Sound(s)
    ensures SentWithStored(s, ArriveIn(s, m, id, r, now))
  {
    hide Accept, ResolvePoll, SentWithStored, TableOk;
    NothingSent(s, ArriveIn(s, m, id, r, now));
  }

  lemma PageSent(s: State, m: Market, ticker: string, timeframe: string, latestRead: bool)
    requires Sound(s)
    ensures SentWithStored(s, LoadIn(s, m, ticker, timeframe, latestRead))
  {
    hide CallPage, Polls, TableOk;
  }

  lemma StepSends(s: State, m: Market, op: Op)
    requires Sound(s)
    ensures SentWithStored(s, Apply(s, m, op))
  {
    hide SentWithStored, LoadIn, JoinIn, ArriveIn, StartPoll, SubOk, Polls;
    match op {
      case LoadPage(ticker, timeframe, latestRead) => PageSent(s, m, ticker, timeframe, latestRead);
      case Tick(tf, now) => PollSent(s, s, tf, now);
      case Join(ticker, timeframe, callback, now) => JoinSent(s, m, ticker, timeframe, callback, now);
      case Leave(tf, callback) => NothingSent(s, Unsubscribe(s, tf, callback));
      case Arrive(id, r, now) => ArriveSent(s, m, id, r, now);
      case Close => NothingSent(s, Destroy(s));
    }
  }

  /** As long as no answer for its timeframe arrives, an open request's baseline is the
      stored revision. */
  lemma {:induction false} BaselineStays(m: Market, ops: seq<Op>, n: nat, id: nat, tf: Timeframe)
    requires 0 < n <= |ops|
    requires id >= After(m, ops[..n - 1]).nextFetch && id in After(m, ops[..n]).fetches
    requires After(m, ops[..n]).fetches[id].tf == tf
    requires forall k :: n <= k < |ops| ==> !AnswersFor(After(m, ops[..k]), ops[k], tf)
    ensures var t := After(m, ops);
            && id < t.nextFetch
            && (id in t.fetches ==> t.fetches[id].tf == tf && t.fetches[id].baseline == Get(t.revisions, tf))
  {
    hide Apply, Sound, AnswersFor;
    var init, op := ops[..|ops| - 1], ops[|ops| - 1];
    if n == |ops| {
      assert ops[..n] == ops;
      StepSends(After(m, init), m, op);
    } else {
      assert init[..n - 1] == ops[..n - 1] && init[..n] == ops[..n];
      forall k | n <= k < |init| ensures !AnswersFor(After(m, init[..k]), init[k], tf) {
        assert init[..k] == ops[..k];
      }
      BaselineStays(m, init, n, id, tf);
      assert ops[..|ops| - 1] == init;
      StepSends(After(m, init), m, op);
      OnlyAnswersStore(After(m, init), m, op, tf);
    }
  }

  // ---------- two requests in flight ----------

  function Quote(price: real): Candle {
    Candle(true, true, Some(1), Some(price), Some(price), Some(price), Some(price), None, None, None)
  }

  function FirstPage(m: Market, revision: string, price: real): Payload {
    Payload(false, false, m.exchange, m.symbol, M1, true, revision, None, Some(5), false, [Quote(price)])
  }

  /** Two pages asked for before anything is stored, answered from different lakes. */
  function Overlapping(m: Market): seq<Op> {
    [LoadPage(m.symbol, "1m", true), LoadPage(m.symbol, "1m", true),
     Arrive(0, Answered(FirstPage(m, "one", 1.0)), 0), Arrive(1, Answered(FirstPage(m, "two", 2.0)), 0)]
  }

  function Flat(hash: string): Lake {
    _ => hash
  }

  function Waiting(m: Market): State {
    FRESH.(fetches := map[0 := Page(M1, true, None), 1 := Page(M1, true, None)], nextFetch := 2)
  }

  lemma QuoteGood(price: real)
    ensures Unique([Quote(price)]) == Good([ToBar(Quote(price))])
  {
    assert [Quote(price)][..0] == [];
  }

  lemma AfterNext(m: Market, ops: seq<Op>, op: Op)
    ensures After(m, ops + [op]) == Apply(After(m, ops), m, op)
  {
    assert (ops + [op])[..|ops|] == ops;
    hide Apply, Sound;
  }

  lemma AskedTwice(m: Market)
    ensures After(m, Overlapping(m)[..2]) == Waiting(m)
  {
    hide Canonical, Sound;
    var ask := LoadPage(m.symbol, "1m", true);
    AfterNext(m, [], ask);
    AfterNext(m, [ask], ask);
    assert [] + [ask] == [ask] && [ask] + [ask] == Overlapping(m)[..2];
  }

  lemma PageAccepted(s: State, m: Market, revision: string, price: real)
    requires !s.destroyed && !s.invalidated && revision != ""
    requires M1 in s.revisions ==> s.revisions[M1].cutoff == Some(5)
    ensures var (t, a) := Accept(s, m, FirstPage(m, revision, price), M1, true, None, 0);
            && a == Accepted([ToBar(Quote(price))])
            && !t.destroyed && !t.invalidated && t.revisions == s.revisions[M1 := Revision(revision, Some(5))]
  {
    QuoteGood(price);
    hide Canonical, FeedState, Unique, ToBar, Quote;
  }

  /** Such a page is handed out and its revision stored, whatever was stored before. */
  lemma PageLands(s: State, m: Market, id: nat, revision: string, price: real)
    requires Sound(s) && !s.destroyed && !s.invalidated && id in s.fetches && s.fetches[id] == Page(M1, true, None)
    requires M1 in s.revisions ==> s.revisions[M1].cutoff == Some(5)
    requires revision != ""
    ensures var t := ArriveIn(s, m, id, Answered(FirstPage(m, revision, price)), 0);
            && Sound(t) && !t.destroyed && !t.invalidated
            && t.fetches == s.fetches - {id} && t.revisions == s.revisions[M1 := Revision(revision, Some(5))]
            && t.returned == s.returned + [[ToBar(Quote(price))]]
  {
    StepSafe(s, m, Arrive(id, Answered(FirstPage(m, revision, price)), 0));
    PageAccepted(s.(fetches := s.fetches - {id}), m, revision, price);
    hide Accept, FirstPage, ToBar, Quote, Sound, Later, Undelivered;
  }

  lemma FirstAnswered(m: Market)
    ensures var t := After(m, Overlapping(m)[..3]);
            && Sound(t) && !t.destroyed && !t.invalidated && t.returned == [[ToBar(Quote(1.0))]]
            && t.fetches == map[1 := Page(M1, true, None)] && t.revisions == map[M1 := Revision("one", Some(5))]
  {
    hide After, ArriveIn, Sound, ToBar, Quote, FirstPage;
    var ops := Overlapping(m);
    assert ops[..2] + [ops[2]] == ops[..3];
    AskedTwice(m);
    AfterNext(m, ops[..2], ops[2]);
    PageLands(Waiting(m), m, 0, "one", 1.0);
  }

  lemma OverlapRuns(m: Market)
    ensures var s := After(m, Overlapping(m));
            && s.returned == [[ToBar(Quote(1.0))], [ToBar(Quote(2.0))]]
            && !s.invalidated && Get(s.revisions, M1) == Some(Revision("two", Some(5)))
  {
    var ops := Overlapping(m);
    assert ops[..3] + [Arrive(1, Answered(FirstPage(m, "two", 2.0)), 0)] == ops;
    hide After, ArriveIn, Sound, ToBar, Quote, FirstPage, Overlapping;
    FirstAnswered(m);
    AfterNext(m, ops[..3], Arrive(1, Answered(FirstPage(m, "two", 2.0)), 0));
    PageLands(After(m, ops[..3]), m, 1, "two", 2.0);
  }

  /** Without that condition the history can split: both pages are handed out, with two
      prices for one bar, and no reload is asked for. */
  lemma OverlapSplits(m: Market)
    ensures var s := After(m, Overlapping(m));
            && Honest(Flat("one"), None, FirstPage(m, "one", 1.0))
            && Honest(Flat("two"), None, FirstPage(m, "two", 2.0))
            && s.returned == [[ToBar(Quote(1.0))], [ToBar(Quote(2.0))]]
            && !s.invalidated && Get(s.revisions, M1) == Some(Revision("two", Some(5)))
            && !Extends(Flat("two"), Some(Revision("one", Some(5))))
  {
    hide After, Overlapping, ToBar, Quote;
    OverlapRuns(m);
  }
}
