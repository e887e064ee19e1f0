/** What an episode id means, and what every run of the squeeze and hybrid replays
    keeps. */
module SqueezeWindowsLaws {
  import opened Common
  import opened SqueezeWindows

  // ---------- what an episode id means ----------

  ghost predicate AllCompressed(bars: seq<Bar>, a: nat, b: nat)
    requires b < |bars| && Priced(bars)
  {
    forall k: nat :: a <= k <= b ==> Compressed(bars, k)
  }

  lemma {:induction false} EpisodesGrow(bars: seq<Bar>, a: nat, b: nat)
    requires a <= b < |bars| && Priced(bars)
    ensures Episode(bars, a) <= Episode(bars, b)
    decreases b
  {
    hide Compressed;
    if a < b {
      EpisodesGrow(bars, a, b - 1);
    }
  }

  /** Two compressed bars carry one id exactly when compression held all the way
      between them. */
  lemma {:induction false} SameEpisodeExactly(bars: seq<Bar>, a: nat, b: nat)
    requires a <= b < |bars| && Priced(bars) && Compressed(bars, a) && Compressed(bars, b)
    ensures Episode(bars, a) == Episode(bars, b) <==> AllCompressed(bars, a, b)
    decreases b
  {
    hide Compressed;
    if a < b {
      EpisodesGrow(bars, a, b - 1);
      if Compressed(bars, b - 1) {
        SameEpisodeExactly(bars, a, b - 1);
      }
    }
  }

  lemma {:induction false} CompressedHasEpisode(bars: seq<Bar>, i: nat)
    requires i < |bars| && Priced(bars) && Compressed(bars, i)
    ensures Episode(bars, i) >= 1
  {
    hide RankWindow, Span, RankedLow;
    if i > 0 && Compressed(bars, i - 1) {
      CompressedHasEpisode(bars, i - 1);
    }
  }

  // ---------- laws of a run ----------

  lemma ArmId(bars: seq<Bar>, i: nat, start: int, mode: Mode)
    requires FIRST_RANK <= i < |bars| && Priced(bars) && ArmAt(bars, i, start, mode).Some?
    ensures var arm := ArmAt(bars, i, start, mode).value;
            && (arm.kind == IgnitionArm ==> arm.episode == -(i + 1) && arm.compressed && mode != Squeeze && mode != Coil
                                            && (mode == Hybrid ==> !Compressed(bars, i)))
            && (arm.kind == CoilArm ==> arm.episode == Episode(bars, i) && mode != Ignition
                                        && (arm.compressed <==> Compressed(bars, i)))
            && (mode == Hybrid && Compressed(bars, i) ==> arm.kind == CoilArm)
  {
    hide BoxHigh, BoxLow, AtrBefore, VolumeBefore, Thrust, Episode, Compressed, VwapAt;
  }

  function Opened(s: State): seq<Position> {
    Positions(s.trades) + if s.open.Some? then [s.open.value] else []
  }

  function Positions(trades: seq<Trade>): (p: seq<Position>)
    ensures |p| == |trades| && forall k :: 0 <= k < |p| ==> p[k] == trades[k].position
  {
    seq(|trades|, k requires 0 <= k < |trades| => trades[k].position)
  }

  /** The id bar i burns, if any: that of an arm past the latch, fired or chased. */
  function BurnOn(bars: seq<Bar>, i: nat, start: int, mode: Mode, reply: Reply, s: State): Option<int>
    requires i < |bars| && Priced(bars)
  {
    if i < FIRST_RANK || s.open.Some? || reply == Rejected then None
    else
      match ArmAt(bars, i, start, mode)
      case None => None
      case Some(arm) => if !arm.compressed || s.latch == Some(arm.episode) then None else Some(arm.episode)
  }

  /** Bar by bar, the ids a run has burned before bar n. */
  function Burns(bars: seq<Bar>, answers: seq<Answers>, start: int, mode: Mode, fee: int -> real, n: nat)
    : (b: seq<Option<int>>)
    requires n <= |bars| == |answers| && Priced(bars)
    ensures |b| == n
  {
    if n == 0 then []
    else
      Burns(bars, answers, start, mode, fee, n - 1)
      + [BurnOn(bars, n - 1, start, mode, answers[n - 1].reply, Run(bars, answers, start, mode, fee, n - 1))]
  }

  lemma StartsEmpty(bars: seq<Bar>, answers: seq<Answers>, start: int, mode: Mode, fee: int -> real)
    requires |bars| == |answers| && Priced(bars)
    ensures Burns(bars, answers, start, mode, fee, 0) == []
    ensures Opened(Run(bars, answers, start, mode, fee, 0)) == []
  {
    hide Step, BurnOn;
  }

  lemma RunsOn(bars: seq<Bar>, answers: seq<Answers>, start: int, mode: Mode, fee: int -> real, i: nat)
    requires i < |bars| == |answers| && Priced(bars)
    ensures var s := Run(bars, answers, start, mode, fee, i);
            && Run(bars, answers, start, mode, fee, i + 1) == Step(bars, i, start, mode, fee, answers[i], s)
            && Burns(bars, answers, start, mode, fee, i + 1)
            == Burns(bars, answers, start, mode, fee, i) + [BurnOn(bars, i, start, mode, answers[i].reply, s)]
  {
    hide Step, BurnOn;
  }

  ghost predicate DistinctIds(b: seq<Option<int>>) {
    forall j, k :: 0 <= j < k < |b| && b[j].Some? ==> b[j] != b[k]
  }

  /** The ids given before bar n: ignition ids are negated bar numbers, coil ids are
      episodes begun by then. */
  ghost predicate IdsBefore(bars: seq<Bar>, n: nat, mode: Mode, b: seq<Option<int>>)
    requires n <= |bars| && Priced(bars)
  {
    forall k :: 0 <= k < |b| && b[k].Some? ==>
      if b[k].value < 0 then 0 <= b[k].value + n
      else mode != Ignition && n > 0 && b[k].value <= Episode(bars, n - 1)
  }

  /** While compression lasts, an episode that was burned is still the one latched. */
  ghost predicate LatchHolds(bars: seq<Bar>, n: nat, latch: Option<int>, b: seq<Option<int>>)
    requires n <= |bars| && Priced(bars)
  {
    n > 0 && Compressed(bars, n - 1) && Some(Episode(bars, n - 1) as int) in b ==>
      latch == Some(Episode(bars, n - 1) as int)
  }

  lemma IdsLater(bars: seq<Bar>, i: nat, mode: Mode, b: seq<Option<int>>)
    requires i < |bars| && Priced(bars) && IdsBefore(bars, i, mode, b)
    ensures IdsBefore(bars, i + 1, mode, b)
  {
    hide Compressed;
    if i > 0 {
      EpisodesGrow(bars, i - 1, i);
    }
  }

  /** Entering bar i: if it is compressed and its episode was burned, that episode is
      latched. */
  lemma LatchAtBar(bars: seq<Bar>, i: nat, mode: Mode, latch: Option<int>, b: seq<Option<int>>)
    requires i < |bars| && Priced(bars) && IdsBefore(bars, i, mode, b) && LatchHolds(bars, i, latch, b)
    ensures Compressed(bars, i) && Some(Episode(bars, i) as int) in b ==> latch == Some(Episode(bars, i) as int)
  {
    hide Compressed;
    if Compressed(bars, i) && Some(Episode(bars, i) as int) in b {
      CompressedHasEpisode(bars, i);
      assert i > 0 && Episode(bars, i) <= Episode(bars, i - 1);
      assert Compressed(bars, i - 1);
    }
  }

  lemma BurnKeeps(bars: seq<Bar>, i: nat, start: int, mode: Mode, reply: Reply, s: State, b: seq<Option<int>>)
    requires i < |bars| && Priced(bars) && BurnOn(bars, i, start, mode, reply, s).Some?
    requires DistinctIds(b) && IdsBefore(bars, i, mode, b) && LatchHolds(bars, i, s.latch, b)
    ensures var burn := BurnOn(bars, i, start, mode, reply, s);
            && DistinctIds(b + [burn]) && IdsBefore(bars, i + 1, mode, b + [burn])
            && LatchHolds(bars, i + 1, burn, b + [burn])
  {
    hide ArmAt, Compressed, Episode;
    var burn := BurnOn(bars, i, start, mode, reply, s);
    ArmId(bars, i, start, mode);
    LatchAtBar(bars, i, mode, s.latch, b);
    IdsLater(bars, i, mode, b);
    if Compressed(bars, i) {
      CompressedHasEpisode(bars, i);
    }
    assert burn !in b;
  }

  lemma QuietKeeps(bars: seq<Bar>, i: nat, mode: Mode, latch: Option<int>, b: seq<Option<int>>)
    requires i < |bars| && Priced(bars)
    requires DistinctIds(b) && IdsBefore(bars, i, mode, b) && LatchHolds(bars, i, latch, b)
    ensures DistinctIds(b + [None]) && IdsBefore(bars, i + 1, mode, b + [None])
      && LatchHolds(bars, i + 1, latch, b + [None])
  {
    hide Compressed, Episode;
    LatchAtBar(bars, i, mode, latch, b);
    IdsLater(bars, i, mode, b);
  }

  /** A bar changes the latch exactly when it burns an id, and then to that id. */
  lemma StepLatch(bars: seq<Bar>, i: nat, start: int, mode: Mode, fee: int -> real, a: Answers, s: State)
    requires i < |bars| && Priced(bars)
    ensures var burn := BurnOn(bars, i, start, mode, a.reply, s);
            Step(bars, i, start, mode, fee, a, s).latch == if burn.Some? then burn else s.latch
  {
    hide ArmAt, CloseTrade;
  }

  /** Over a whole run, in every mode, each id is burned at most once, whether it fired
      or was chased: an ignition never unlocks a burned coil episode, nor the other
      way round. */
  lemma {:induction false} EpisodesBurnOnce(bars: seq<Bar>, answers: seq<Answers>, start: int, mode: Mode,
                                            fee: int -> real, n: nat)
    requires n <= |bars| == |answers| && Priced(bars)
    ensures var b := Burns(bars, answers, start, mode, fee, n);
            && DistinctIds(b) && IdsBefore(bars, n, mode, b)
            && LatchHolds(bars, n, Run(bars, answers, start, mode, fee, n).latch, b)
  {
    hide Run, Burns, Step, BurnOn, Compressed, Episode;
    StartsEmpty(bars, answers, start, mode, fee);
    if n > 0 {
      hide DistinctIds, IdsBefore, LatchHolds;
      var i := n - 1;
      var s, b := Run(bars, answers, start, mode, fee, i), Burns(bars, answers, start, mode, fee, i);
      EpisodesBurnOnce(bars, answers, start, mode, fee, i);
      RunsOn(bars, answers, start, mode, fee, i);
      StepLatch(bars, i, start, mode, fee, answers[i], s);
      if BurnOn(bars, i, start, mode, answers[i].reply, s).Some? {
        BurnKeeps(bars, i, start, mode, answers[i].reply, s, b);
      } else {
        QuietKeeps(bars, i, mode, s.latch, b);
      }
    }
  }

  /** Every position burned its id on its own bar, where the reply was to fire. */
  ghost predicate PositionsBurned(answers: seq<Answers>, b: seq<Option<int>>, p: seq<Position>) {
    && (forall k :: 0 <= k < |p| ==>
          && p[k].bar < |b| <= |answers| && b[p[k].bar] == Some(p[k].episode) && answers[p[k].bar].reply.Fired?
          && (p[k].kind == IgnitionArm <==> p[k].episode < 0))
    && forall j, k :: 0 <= j < k < |p| ==> p[j].bar < p[k].bar
  }

  lemma ClosesOpen(p: Position, x: Exit, i: nat, fee: int -> real)
    ensures CloseTrade(p, x, i, fee).position == p
  {
  }

  /** A bar opens a position exactly when it burns an id by firing, and never drops or
      changes one. */
  lemma StepPositions(bars: seq<Bar>, i: nat, start: int, mode: Mode, fee: int -> real, a: Answers, s: State)
    requires i < |bars| && Priced(bars)
    ensures var burn := BurnOn(bars, i, start, mode, a.reply, s);
            var p := Opened(Step(bars, i, start, mode, fee, a, s));
            if burn.Some? && a.reply.Fired?
            then && |p| == |Opened(s)| + 1 && p[..|Opened(s)|] == Opened(s)
                 && p[|Opened(s)|].bar == i && burn == Some(p[|Opened(s)|].episode)
                 && (p[|Opened(s)|].kind == IgnitionArm <==> p[|Opened(s)|].episode < 0)
            else p == Opened(s)
  {
    hide ArmAt, CloseTrade, Episode;
    var t := Step(bars, i, start, mode, fee, a, s);
    if i >= FIRST_RANK && s.open.Some? && a.exit.Some? {
      ClosesOpen(s.open.value, a.exit.value, i, fee);
    } else if i >= FIRST_RANK && s.open.None? && ArmAt(bars, i, start, mode).Some? {
      ArmId(bars, i, start, mode);
      assert t.trades == s.trades;
    }
  }

  lemma {:induction false} RunPositions(bars: seq<Bar>, answers: seq<Answers>, start: int, mode: Mode, fee: int -> real,
                                        n: nat)
    requires n <= |bars| == |answers| && Priced(bars)
    ensures PositionsBurned(answers, Burns(bars, answers, start, mode, fee, n),
                            Opened(Run(bars, answers, start, mode, fee, n)))
  {
    hide Run, Burns, Opened, Step, BurnOn;
    StartsEmpty(bars, answers, start, mode, fee);
    if n > 0 {
      var i := n - 1;
      var s := Run(bars, answers, start, mode, fee, i);
      RunPositions(bars, answers, start, mode, fee, i);
      RunsOn(bars, answers, start, mode, fee, i);
      StepPositions(bars, i, start, mode, fee, answers[i], s);
      var p, q := Opened(s), Opened(Run(bars, answers, start, mode, fee, n));
      assert forall k :: 0 <= k < |p| ==> q[k] == p[k];
    }
  }

  ghost predicate DistinctEpisodes(p: seq<Position>) {
    forall j, k :: 0 <= j < k < |p| ==> p[j].episode != p[k].episode
  }

  /** No episode id opens two positions. */
  lemma EpisodesFireOnce(bars: seq<Bar>, answers: seq<Answers>, start: int, mode: Mode, fee: int -> real, n: nat)
    requires n <= |bars| == |answers| && Priced(bars)
    ensures DistinctEpisodes(Opened(Run(bars, answers, start, mode, fee, n)))
  {
    hide Opened, Run, Burns;
    EpisodesBurnOnce(bars, answers, start, mode, fee, n);
    RunPositions(bars, answers, start, mode, fee, n);
  }

  /** An id burned by a chase opens no position at all, before or after. */
  lemma ChasedNeverFires(bars: seq<Bar>, answers: seq<Answers>, start: int, mode: Mode, fee: int -> real, n: nat,
                         i: nat, k: nat)
    requires i < n <= |bars| == |answers| && Priced(bars)
    requires answers[i].reply == ChaseBurned && Burns(bars, answers, start, mode, fee, n)[i].Some?
    requires k < |Opened(Run(bars, answers, start, mode, fee, n))|
    ensures var s := Run(bars, answers, start, mode, fee, n);
            Burns(bars, answers, start, mode, fee, n)[i] != Some(Opened(s)[k].episode)
  {
    hide Opened, Run, Burns;
    EpisodesBurnOnce(bars, answers, start, mode, fee, n);
    RunPositions(bars, answers, start, mode, fee, n);
  }

  /** Every call to the trigger carries its own bar's arm, and calls move forward. */
  ghost predicate OffersTrue(bars: seq<Bar>, start: int, mode: Mode, n: nat, offers: seq<Offer>)
    requires n <= |bars| && Priced(bars)
  {
    && (forall k :: 0 <= k < |offers| ==>
          FIRST_RANK <= offers[k].bar < n && ArmAt(bars, offers[k].bar, start, mode) == Some(offers[k].arm))
    && forall j, k :: 0 <= j < k < |offers| ==> offers[j].bar < offers[k].bar
  }

  /** Trades never overlap, and a position is held at least one bar. */
  ghost predicate Disjoint(n: nat, s: State) {
    && (forall k :: 0 <= k < |s.trades| ==>
          s.trades[k].position.bar < s.trades[k].exitBar < n
          && s.trades[k].held == s.trades[k].exitBar - s.trades[k].position.bar >= 1)
    && (forall j, k :: 0 <= j < k < |s.trades| ==> s.trades[j].exitBar < s.trades[k].position.bar)
    && (s.open.Some? ==>
          s.open.value.bar < n && forall k :: 0 <= k < |s.trades| ==> s.trades[k].exitBar < s.open.value.bar)
  }

  lemma {:induction false} RunInOrder(bars: seq<Bar>, answers: seq<Answers>, start: int, mode: Mode, fee: int -> real,
                                      n: nat)
    requires n <= |bars| == |answers| && Priced(bars)
    ensures var s := Run(bars, answers, start, mode, fee, n);
            Disjoint(n, s) && OffersTrue(bars, start, mode, n, s.offers)
  {
    hide ArmAt, Step, Disjoint, OffersTrue;
    if n == 0 {
      NothingYet(bars, start, mode);
    } else {
      RunInOrder(bars, answers, start, mode, fee, n - 1);
      StepDisjoint(bars, n - 1, start, mode, fee, answers[n - 1], Run(bars, answers, start, mode, fee, n - 1));
      StepOffers(bars, n - 1, start, mode, fee, answers[n - 1], Run(bars, answers, start, mode, fee, n - 1));
    }
  }

  lemma NothingYet(bars: seq<Bar>, start: int, mode: Mode)
    requires Priced(bars)
    ensures Disjoint(0, INITIAL) && OffersTrue(bars, start, mode, 0, INITIAL.offers)
  {
  }

  lemma StepDisjoint(bars: seq<Bar>, i: nat, start: int, mode: Mode, fee: int -> real, a: Answers, s: State)
    requires i < |bars| && Priced(bars) && Disjoint(i, s)
    ensures Disjoint(i + 1, Step(bars, i, start, mode, fee, a, s))
  {
    hide ArmAt;
  }

  lemma StepOffers(bars: seq<Bar>, i: nat, start: int, mode: Mode, fee: int -> real, a: Answers, s: State)
    requires i < |bars| && Priced(bars) && OffersTrue(bars, start, mode, i, s.offers)
    ensures OffersTrue(bars, start, mode, i + 1, Step(bars, i, start, mode, fee, a, s).offers)
  {
    hide ArmAt, CloseTrade;
    if i >= FIRST_RANK && s.open.None? && ArmAt(bars, i, start, mode).Some? {
      var t := Offered(s, ArmAt(bars, i, start, mode).value, a.reply, i);
      assert t.offers == s.offers + [Offer(i, ArmAt(bars, i, start, mode).value)];
    }
  }

  /** Ignition arms have ids of their own: pairwise distinct, and never a coil's. */
  lemma IgnitionIdsApart(bars: seq<Bar>, answers: seq<Answers>, start: int, mode: Mode, fee: int -> real, j: nat,
                         k: nat)
    requires |bars| == |answers| && Priced(bars)
    requires var offers := Run(bars, answers, start, mode, fee, |bars|).offers;
             j < |offers| && k < |offers| && j != k && offers[j].arm.kind == IgnitionArm
    ensures var offers := Run(bars, answers, start, mode, fee, |bars|).offers;
            offers[j].arm.episode < 0 && offers[j].arm.episode != offers[k].arm.episode
  {
    hide ArmAt, Run, Episode, Disjoint;
    RunInOrder(bars, answers, start, mode, fee, |bars|);
    var offers := Run(bars, answers, start, mode, fee, |bars|).offers;
    ArmId(bars, offers[j].bar, start, mode);
    ArmId(bars, offers[k].bar, start, mode);
  }
}
