/** The restart budget over whole runs of cycles, with crashes and failed
    restarts anywhere between the pre-restart save and the final save. */
module WatchdogLaws {
  import opened Common
  import opened Watchdog

  // ---------- runs ----------

  ghost predicate AllListed(cs: seq<Input>) {
    forall k :: 0 <= k < |cs| ==> Listed(cs[k])
  }

  ghost predicate Run(cs: seq<Input>) {
    && AllListed(cs)
    && (forall j, k :: 0 <= j <= k < |cs| ==> cs[j].now <= cs[k].now)
  }

  /** The service has a container in every cycle. */
  ghost predicate Watched(cs: seq<Input>, service: string) {
    forall k :: 0 <= k < |cs| ==> service in cs[k].order
  }

  function DiskAfter(cs: seq<Input>): Disk
    requires AllListed(cs)
  {
    if cs == [] then map[]
    else Cycle(DiskAfter(cs[..|cs| - 1]), cs[|cs| - 1]).disk
  }

  function LastCycle(cs: seq<Input>): Outcome
    requires cs != [] && AllListed(cs)
  {
    Cycle(DiskAfter(cs[..|cs| - 1]), cs[|cs| - 1])
  }

  /** The times at which an attempt for the service was saved before acting. */
  function Attempts(cs: seq<Input>, service: string): seq<real>
    requires AllListed(cs)
  {
    if cs == [] then []
    else
      Attempts(cs[..|cs| - 1], service)
      + (if service in LastCycle(cs).attempts then [cs[|cs| - 1].now] else [])
  }

  /** A restart that happened: the time stamped on its attempt, and its own time. */
  datatype Done = Done(stamp: real, at: real)

  function DoneBy(c: Input): Done {
    Done(c.now, c.now + c.fault.delay)
  }

  /** Every time the service was really restarted. */
  function Restarts(cs: seq<Input>, service: string): seq<Done>
    requires AllListed(cs)
  {
    if cs == [] then []
    else
      Restarts(cs[..|cs| - 1], service)
      + (if service in LastCycle(cs).restarts then [DoneBy(cs[|cs| - 1])] else [])
  }

  function Stamps(r: seq<Done>): (t: seq<real>)
    ensures |t| == |r| && forall k :: 0 <= k < |r| ==> t[k] == r[k].stamp
  {
    seq(|r|, k requires 0 <= k < |r| => r[k].stamp)
  }

  function Moments(r: seq<Done>): (t: seq<real>)
    ensures |t| == |r| && forall k :: 0 <= k < |r| ==> t[k] == r[k].at
  {
    seq(|r|, k requires 0 <= k < |r| => r[k].at)
  }

  /** Every docker call takes effect within d of its cycle's clock reading. */
  ghost predicate Prompt(cs: seq<Input>, d: real) {
    forall k :: 0 <= k < |cs| ==> 0.0 <= cs[k].fault.delay <= d
  }

  predicate Unhealthy(c: Input, service: string) {
    service in c.containers && c.containers[service].health == "unhealthy"
  }

  /** For each cycle whose assessment of the service reached the disk: was it unhealthy? */
  function Assessments(cs: seq<Input>, service: string): seq<bool>
    requires AllListed(cs)
  {
    if cs == [] then []
    else
      Assessments(cs[..|cs| - 1], service)
      + (if service in LastCycle(cs).saved then [Unhealthy(cs[|cs| - 1], service)] else [])
  }

  /** How many of the latest entries in a row are true. */
  function Trailing(log: seq<bool>): (n: nat)
    ensures n <= |log|
    ensures forall k :: |log| - n <= k < |log| ==> log[k]
    ensures n < |log| ==> !log[|log| - 1 - n]
  {
    if log == [] || !log[|log| - 1] then 0 else 1 + Trailing(log[..|log| - 1])
  }

  // ---------- one cycle, for one service ----------

  ghost predicate Written(row: Row, assessed: Row, attempted: bool, now: real) {
    && row.failures == assessed.failures
    && row.restarts == if attempted then assessed.restarts + [now] else assessed.restarts
  }

  ghost predicate SweepFacts(prev: Disk, c: Input, n: nat, p: Progress, service: string)
    requires Listed(c) && n <= |c.order| && service in c.order
  {
    assert service in c.containers;
    var row := AssessNow(prev, c, service);
    && |p.attempts| <= 1 && p.restarts <= p.attempts
    && (!p.halted ==> (p.recovered <==> p.attempts != []))
    && (!p.halted ==> forall x :: x in p.rows <==> x in c.order[..n])
    && (!p.halted && service in p.rows ==> Written(p.rows[service], row, service in p.attempts, c.now))
    && (forall x :: x in p.attempts ==> x in c.order[..n] && x in p.saved)
    && (service in p.attempts ==> row.action == Restart)
    && (p.attempts == [] ==> p.saved == {} && p.disk == prev)
    && (service in p.saved ==> service in p.disk && Written(p.disk[service], row, service in p.attempts, c.now))
    && (service !in p.saved ==> Before(p.disk, service) == Before(prev, service))
  }

  lemma PlainVisit(prev: Disk, c: Input, n: nat, p: Progress, service: string, row: Row)
    requires Listed(c) && n < |c.order| && service in c.order
    requires SweepFacts(prev, c, n, p, service) && !p.halted
    requires Written(row, AssessNow(prev, c, c.order[n]), false, c.now)
    ensures SweepFacts(prev, c, n + 1, p.(rows := p.rows[c.order[n] := row]), service)
  {
    hide Assess, Recent;
    assert c.order[..n + 1] == c.order[..n] + [c.order[n]];
    assert c.order[n] !in c.order[..n];
  }

  lemma AttemptVisit(prev: Disk, c: Input, n: nat, p: Progress, service: string, q: Progress)
    requires Listed(c) && n < |c.order| && service in c.order
    requires SweepFacts(prev, c, n, p, service) && !p.halted && p.attempts == []
    requires AssessNow(prev, c, c.order[n]).action == Restart
    requires q.attempts == [c.order[n]] && q.restarts <= q.attempts && q.saved == q.rows.Keys
      && (!q.halted ==> q.recovered)
    requires q.rows.Keys == p.rows.Keys + {c.order[n]}
    requires forall x :: x in p.rows && x != c.order[n] ==> q.rows[x] == p.rows[x]
    requires Written(q.rows[c.order[n]], AssessNow(prev, c, c.order[n]), true, c.now)
    requires q.disk.Keys == prev.Keys + q.rows.Keys
    requires forall x :: x in q.disk ==> if x in q.rows then SameLedgerRow(q.disk[x], q.rows[x])
                                         else q.disk[x] == prev[x]
    ensures SweepFacts(prev, c, n + 1, q, service)
  {
    hide Assess, Recent, AssessNow, Written, SameLedgerRow;
    assert c.order[..n + 1] == c.order[..n] + [c.order[n]];
    assert c.order[n] !in c.order[..n];
    if service in q.rows {
      assert Written(q.rows[service], AssessNow(prev, c, service), service == c.order[n], c.now);
      WrittenAlike(q.disk[service], q.rows[service], AssessNow(prev, c, service), service == c.order[n], c.now);
    }
  }

  lemma WrittenAlike(a: Row, b: Row, assessed: Row, attempted: bool, now: real)
    requires SameLedgerRow(a, b) && Written(b, assessed, attempted, now)
    ensures Written(a, assessed, attempted, now)
  {
  }

  /** Rows that differ at most in the action shown. */
  ghost predicate SameLedgerRow(a: Row, b: Row) {
    a.failures == b.failures && a.restarts == b.restarts
  }

  lemma VisitFacts(prev: Disk, c: Input, n: nat, p: Progress, service: string)
    requires Listed(c) && n < |c.order| && service in c.order
    requires SweepFacts(prev, c, n, p, service)
    ensures SweepFacts(prev, c, n + 1, Visit(prev, c, c.order[n], p), service)
  {
    hide Assess, AssessNow;
    var x := c.order[n];
    var row, q := AssessNow(prev, c, x), Visit(prev, c, x, p);
    if p.halted {
      assert c.order[..n + 1] == c.order[..n] + [x];
    } else {
      assert p.recovered <==> p.attempts != [];
      assert p.restarts <= p.attempts;
      hide SweepFacts;
      if row.action == Restart && c.apply && !p.recovered {
        if !c.fault.preSave {
          UnsavedVisit(prev, c, n, p, service, q);
        } else {
          SavedVisit(prev, c, n, p, service);
        }
      } else {
        PlainVisit(prev, c, n, p, service, q.rows[x]);
        assert p.(rows := p.rows[x := q.rows[x]]) == q;
      }
    }
  }

  lemma SavedVisit(prev: Disk, c: Input, n: nat, p: Progress, service: string)
    requires Listed(c) && n < |c.order| && service in c.order
    requires SweepFacts(prev, c, n, p, service) && !p.halted && p.attempts == []
    requires AssessNow(prev, c, c.order[n]).action == Restart && c.apply && c.fault.preSave
    requires !p.recovered && p.restarts == []
    ensures SweepFacts(prev, c, n + 1, Visit(prev, c, c.order[n], p), service)
  {
    hide SweepFacts, Listed, Assess, AssessNow;
    ListedAt(c, n);
    VisitSaves(prev, c, c.order[n], p);
    hide Visit;
    AttemptVisit(prev, c, n, p, service, Visit(prev, c, c.order[n], p));
  }

  lemma VisitSaves(prev: Disk, c: Input, x: string, p: Progress)
    requires x in c.containers && !p.halted && !p.recovered && p.attempts == [] && p.restarts == []
    requires AssessNow(prev, c, x).action == Restart && c.apply && c.fault.preSave
    ensures var q := Visit(prev, c, x, p);
      && q.attempts == [x] && q.restarts <= q.attempts && q.saved == q.rows.Keys && (!q.halted ==> q.recovered)
      && q.rows.Keys == p.rows.Keys + {x}
      && (forall y :: y in p.rows && y != x ==> q.rows[y] == p.rows[y])
      && Written(q.rows[x], AssessNow(prev, c, x), true, c.now)
      && q.disk.Keys == prev.Keys + q.rows.Keys
      && forall y :: y in q.disk ==> if y in q.rows then SameLedgerRow(q.disk[y], q.rows[y]) else q.disk[y] == prev[y]
  {
    hide AssessNow;
  }

  lemma UnsavedVisit(prev: Disk, c: Input, n: nat, p: Progress, service: string, q: Progress)
    requires Listed(c) && n < |c.order| && service in c.order
    requires SweepFacts(prev, c, n, p, service) && !p.halted && p.attempts == []
    requires q == p.(rows := q.rows, halted := true)
    ensures SweepFacts(prev, c, n + 1, q, service)
  {
    hide Assess, Recent;
    assert c.order[..n + 1] == c.order[..n] + [c.order[n]];
  }

  lemma {:induction false} SweepKeeps(prev: Disk, c: Input, n: nat, service: string)
    requires Listed(c) && n <= |c.order| && service in c.order
    ensures SweepFacts(prev, c, n, Sweep(prev, c, n), service)
  {
    hide Visit, Assess;
    if n > 0 {
      SweepKeeps(prev, c, n - 1, service);
      VisitFacts(prev, c, n - 1, Sweep(prev, c, n - 1), service);
    }
  }

  /** What a cycle does to a listed service: at most one attempt and one restart
      in all, a restart only after its attempt was saved, an attempt only when
      the policy chose it, and the disk either has this cycle's assessment with
      the attempt or is as before with no attempt made. */
  lemma CycleEffect(prev: Disk, c: Input, service: string)
    requires Listed(c) && service in c.order
    ensures service in c.containers
    ensures var o, row := Cycle(prev, c), AssessNow(prev, c, service);
      && |o.attempts| <= 1 && o.restarts <= o.attempts
      && (service in o.attempts ==> row.action == Restart && service in o.saved)
      && (service in o.saved ==> service in o.disk && Written(o.disk[service], row, service in o.attempts, c.now))
      && (service !in o.saved ==> Before(o.disk, service) == Before(prev, service))
  {
    hide Sweep, Visit, Assess;
    SweepKeeps(prev, c, |c.order|, service);
    assert c.order[..|c.order|] == c.order;
  }

  /** In every cycle, whatever fails, at most one service is restarted. */
  lemma OneRestartPerCycle(prev: Disk, c: Input)
    requires Listed(c)
    ensures |Cycle(prev, c).restarts| <= |Cycle(prev, c).attempts| <= 1
    ensures forall s :: s in Cycle(prev, c).restarts ==> s in Cycle(prev, c).attempts
  {
    if c.order != [] {
      CycleEffect(prev, c, c.order[0]);
    }
  }

  // ---------- the budget ----------

  ghost predicate Spaced(t: seq<real>) {
    && (forall j, k :: 0 <= j && k == j + 1 && k < |t| ==> t[k] - t[j] >= COOLDOWN)
    && (forall j, k :: 0 <= j && k == j + 2 && k < |t| ==> t[k] - t[j] >= HOUR)
  }

  /** Nondecreasing and not after now. */
  ghost predicate Past(t: seq<real>, now: real) {
    && (forall j, k :: 0 <= j <= k < |t| ==> t[j] <= t[k])
    && (forall k :: 0 <= k < |t| ==> t[k] <= now)
  }

  /** The pruned history is a suffix of all attempts; the rest are an hour old. */
  ghost predicate Remembers(history: seq<real>, t: seq<real>, now: real) {
    && |history| <= |t|
    && history == t[|t| - |history|..]
    && forall j :: 0 <= j < |t| - |history| ==> now - t[j] >= HOUR
  }

  lemma {:induction false} RecentIsSuffix(t: seq<real>, now: real)
    requires Past(t, now)
    ensures Remembers(Recent(t, now), t, now)
  {
    if t != [] {
      var init, last := t[..|t| - 1], t[|t| - 1];
      assert t == init + [last];
      RecentIsSuffix(init, now);
      if now - last >= HOUR {
        NoneRecent(t, now);
      } else {
        hide Past, Recent;
        RecentStep(t, now);
        RemembersAppend(Recent(init, now), init, last, now);
      }
    }
  }

  lemma RecentStep(t: seq<real>, now: real)
    requires t != [] && Past(t, now) && now - t[|t| - 1] < HOUR
    ensures Recent(t, now) == Recent(t[..|t| - 1], now) + [t[|t| - 1]]
  {
  }

  lemma {:induction false} NoneRecent(t: seq<real>, now: real)
    requires forall k :: 0 <= k < |t| ==> !(0.0 <= now - t[k] < HOUR)
    ensures Recent(t, now) == []
  {
    if t != [] {
      NoneRecent(t[..|t| - 1], now);
    }
  }

  lemma PruneAgain(history: seq<real>, t: seq<real>, before: real, now: real)
    requires before <= now && Past(t, before) && Remembers(history, t, before)
    ensures Remembers(Recent(history, now), t, now)
  {
    RecentIsSuffix(history, now);
    var r, m := Recent(history, now), |t| - |history|;
    assert forall j :: 0 <= j < |history| ==> history[j] == t[m + j];
    forall j | 0 <= j < |t| - |r| ensures now - t[j] >= HOUR {
      if j >= m {
        assert t[j] == history[j - m];
      }
    }
  }

  lemma AttemptKeepsSpacing(history: seq<real>, t: seq<real>, now: real)
    requires Past(t, now) && Spaced(t) && Remembers(history, t, now)
    requires |history| < MAX_RESTARTS_PER_HOUR && forall x :: x in history ==> now - x >= COOLDOWN
    ensures Spaced(t + [now]) && Past(t + [now], now) && Remembers(history + [now], t + [now], now)
  {
    if |t| > 0 {
      if |history| > 0 {
        assert t[|t| - 1] == history[|history| - 1];
        assert history[|history| - 1] in history;
      }
      assert now - t[|t| - 1] >= COOLDOWN;
    }
    if |t| > 1 {
      assert now - t[|t| - 2] >= HOUR;
    }
    SpacedAppend(t, now);
    PastAppend(t, now);
    RemembersAppend(history, t, now, now);
  }

  lemma SpacedAppend(t: seq<real>, now: real)
    requires Spaced(t)
    requires |t| > 0 ==> now - t[|t| - 1] >= COOLDOWN
    requires |t| > 1 ==> now - t[|t| - 2] >= HOUR
    ensures Spaced(t + [now])
  {
    var u := t + [now];
    forall j, k | 0 <= j && k == j + 1 && k < |u| ensures u[k] - u[j] >= COOLDOWN {
      if k < |t| { assert t[k] - t[j] >= COOLDOWN; }
    }
    forall j, k | 0 <= j && k == j + 2 && k < |u| ensures u[k] - u[j] >= HOUR {
      if k < |t| { assert t[k] - t[j] >= HOUR; }
    }
  }

  lemma PastAppend(t: seq<real>, now: real)
    requires Past(t, now)
    ensures Past(t + [now], now)
  {
  }

  lemma RemembersAppend(history: seq<real>, t: seq<real>, x: real, now: real)
    requires Remembers(history, t, now)
    ensures Remembers(history + [x], t + [x], now)
  {
  }

  /** Everything the run remembers and promises about one service. */
  ghost predicate Ledger(row: Row, t: seq<real>, log: seq<bool>, now: real) {
    && Past(t, now) && Spaced(t)
    && Remembers(row.restarts, t, now)
    && row.failures == Trailing(log)
  }

  lemma CycleKeepsLedger(prev: Disk, c: Input, service: string, t: seq<real>, log: seq<bool>, before: real)
    requires Listed(c) && service in c.order && service in c.containers && before <= c.now
    requires Ledger(Before(prev, service), t, log, before)
    ensures var o := Cycle(prev, c);
      var u := if service in o.attempts then t + [c.now] else t;
      var more := if service in o.saved then log + [Unhealthy(c, service)] else log;
      && Ledger(Before(o.disk, service), u, more, c.now)
      && (service in o.attempts ==> Trailing(more) >= 3)
  {
    hide Cycle, Assess, Spaced, Remembers, Recent, Trailing;
    CycleEffect(prev, c, service);
    var was, row := Before(prev, service), AssessNow(prev, c, service);
    AssessParts(service, c.containers[service], was, c.now);
    PruneAgain(was.restarts, t, before, c.now);
    OlderStill(was.restarts, t, before, c.now);
    if service in Cycle(prev, c).attempts {
      RestartExactly(service, c.containers[service], was, c.now);
      AttemptKeepsSpacing(row.restarts, t, c.now);
    }
    TrailingStep(log, Unhealthy(c, service));
  }

  lemma AssessParts(service: string, c: Container, previous: Row, now: real)
    ensures Assess(service, c, previous, now).restarts == Recent(previous.restarts, now)
    ensures Assess(service, c, previous, now).failures == if c.health == "unhealthy" then previous.failures + 1 else 0
  {
  }

  lemma OlderStill(history: seq<real>, t: seq<real>, before: real, now: real)
    requires before <= now && Remembers(history, t, before)
    ensures Remembers(history, t, now)
  {
  }

  lemma TrailingStep(log: seq<bool>, x: bool)
    ensures Trailing(log + [x]) == if x then Trailing(log) + 1 else 0
  {
    assert (log + [x])[..|log|] == log;
  }

  lemma EmptyLedger(now: real)
    ensures Ledger(UNKNOWN, [], [], now)
  {
    hide Recent, Assess, Cycle;
    var none: seq<real> := [];
    assert Past(none, now) && Spaced(none) && Remembers(none, none, now);
    assert Trailing([]) == 0;
  }

  /** After every run: the persisted history is what the last hour needs, all
      attempts are spaced, the failure counter is the run of unhealthy persisted
      assessments, and an attempt just made had at least three of those. */
  lemma {:induction false} RunKeepsLedger(cs: seq<Input>, service: string)
    requires cs != [] && Run(cs) && Watched(cs, service)
    ensures Ledger(Before(DiskAfter(cs), service), Attempts(cs, service), Assessments(cs, service), cs[|cs| - 1].now)
    ensures service in LastCycle(cs).attempts ==> Trailing(Assessments(cs, service)) >= 3
  {
    hide *;
    var init, c := cs[..|cs| - 1], cs[|cs| - 1];
    RunSplits(cs, service);
    HistoriesGrow(cs, service);
    if init == [] {
      FreshHistories(service);
      EmptyLedger(c.now);
      CycleKeepsLedger(DiskAfter(init), c, service, [], [], c.now);
    } else {
      RunKeepsLedger(init, service);
      CycleKeepsLedger(DiskAfter(init), c, service, Attempts(init, service), Assessments(init, service),
                       init[|init| - 1].now);
    }
  }

  lemma RunSplits(cs: seq<Input>, service: string)
    requires cs != [] && Run(cs) && Watched(cs, service)
    ensures var init, c := cs[..|cs| - 1], cs[|cs| - 1];
            && Run(init) && Watched(init, service)
            && Listed(c) && service in c.order && service in c.containers
            && AllListed(cs) && AllListed(init)
            && (init != [] ==> init[|init| - 1].now <= c.now)
  {
    assert Listed(cs[|cs| - 1]);
  }

  /** What the last cycle adds to the histories. */
  lemma HistoriesGrow(cs: seq<Input>, service: string)
    requires cs != [] && AllListed(cs)
    ensures var init, c := cs[..|cs| - 1], cs[|cs| - 1];
            var o := Cycle(DiskAfter(init), c);
            && DiskAfter(cs) == o.disk && LastCycle(cs) == o
            && Attempts(cs, service) == (if service in o.attempts then Attempts(init, service) + [c.now]
                                         else Attempts(init, service))
            && Assessments(cs, service)
            == if service in o.saved then Assessments(init, service) + [Unhealthy(c, service)]
               else Assessments(init, service)
  {
    hide Cycle, Listed, Unhealthy;
    var init := cs[..|cs| - 1];
    assert Attempts(init, service) + [] == Attempts(init, service);
    assert Assessments(init, service) + [] == Assessments(init, service);
  }

  lemma FreshHistories(service: string)
    ensures Before(DiskAfter([]), service) == UNKNOWN && Attempts([], service) == [] && Assessments([], service) == []
  {
  }

  // ---------- windows ----------

  /** How many of the times fall in the half-open window [lo, lo + width). */
  function Within(t: seq<real>, lo: real, width: real): (n: nat)
    ensures n <= |t|
  {
    if t == [] then 0
    else Within(t[..|t| - 1], lo, width) + (if lo <= t[|t| - 1] < lo + width then 1 else 0)
  }

  lemma {:induction false} NoneBefore(t: seq<real>, lo: real, width: real)
    requires forall k :: 0 <= k < |t| ==> t[k] < lo
    ensures Within(t, lo, width) == 0
  {
    if t != [] {
      NoneBefore(t[..|t| - 1], lo, width);
    }
  }

  lemma {:induction false} HourBudget(t: seq<real>, now: real, lo: real)
    requires Past(t, now) && Spaced(t)
    ensures Within(t, lo, HOUR) <= 2
  {
    if |t| > 2 {
      var last := t[|t| - 1];
      HourBudget(t[..|t| - 1], now, lo);
      if lo <= last < lo + HOUR {
        assert last - t[|t| - 3] >= HOUR;
        NoneBefore(t[..|t| - 2], lo, HOUR);
        assert t[..|t| - 1][..|t| - 2] == t[..|t| - 2];
      }
    }
  }

  lemma {:induction false} SplitWindow(t: seq<real>, lo: real, a: real, b: real)
    requires a >= 0.0 && b >= 0.0
    ensures Within(t, lo, a + b) == Within(t, lo, a) + Within(t, lo + a, b)
  {
    if t != [] {
      SplitWindow(t[..|t| - 1], lo, a, b);
    }
  }

  lemma {:induction false} LongBudget(t: seq<real>, now: real, lo: real, width: real, hours: nat)
    requires Past(t, now) && Spaced(t) && 0.0 <= width <= HOUR * hours as real
    ensures Within(t, lo, width) <= 2 * hours
    decreases hours
  {
    if hours == 0 {
      SplitWindow(t, lo, 0.0, 0.0);
    } else if width <= HOUR {
      SplitWindow(t, lo, width, HOUR - width);
      HourBudget(t, now, lo);
    } else {
      SplitWindow(t, lo, HOUR, width - HOUR);
      HourBudget(t, now, lo);
      assert width - HOUR <= HOUR * (hours - 1) as real;
      LongBudget(t, now, lo + HOUR, width - HOUR, hours - 1);
    }
  }

  lemma {:induction false} CooldownBudget(t: seq<real>, now: real, lo: real)
    requires Past(t, now) && Spaced(t)
    ensures Within(t, lo, COOLDOWN) <= 1
  {
    if |t| > 1 {
      var last := t[|t| - 1];
      CooldownBudget(t[..|t| - 1], now, lo);
      if lo <= last < lo + COOLDOWN {
        assert last - t[|t| - 2] >= COOLDOWN;
        NoneBefore(t[..|t| - 1], lo, COOLDOWN);
      }
    }
  }

  /** A window a cooldown longer holds at most one attempt more. */
  lemma LongerBudget(t: seq<real>, now: real, lo: real, width: real, hours: nat)
    requires Past(t, now) && Spaced(t) && 0.0 <= width <= HOUR * hours as real + COOLDOWN
    ensures Within(t, lo, width) <= 2 * hours + 1
  {
    if width <= COOLDOWN {
      SplitWindow(t, lo, width, COOLDOWN - width);
      CooldownBudget(t, now, lo);
    } else {
      SplitWindow(t, lo, COOLDOWN, width - COOLDOWN);
      CooldownBudget(t, now, lo);
      LongBudget(t, now, lo + COOLDOWN, width - COOLDOWN, hours);
    }
  }

  /** What one more cycle adds to the two histories: nothing, an attempt, or an
      attempt and its restart. */
  lemma LastStep(cs: seq<Input>, service: string)
    requires cs != [] && AllListed(cs)
    ensures var init, c := cs[..|cs| - 1], cs[|cs| - 1];
            var r, a := Restarts(init, service), Attempts(init, service);
            || (Restarts(cs, service) == r && Attempts(cs, service) == a)
            || (Restarts(cs, service) == r && Attempts(cs, service) == a + [c.now])
            || (Restarts(cs, service) == r + [DoneBy(c)] && Attempts(cs, service) == a + [c.now])
  {
    hide Cycle, Listed;
    var init := cs[..|cs| - 1];
    OneRestartPerCycle(DiskAfter(init), cs[|cs| - 1]);
    assert Restarts(init, service) + [] == Restarts(init, service);
    assert Attempts(init, service) + [] == Attempts(init, service);
  }

  lemma NothingDone(service: string, lo: real, width: real)
    ensures AllListed([]) && Stamps(Restarts([], service)) == Moments(Restarts([], service)) == []
    ensures Within([], lo, width) == 0
  {
  }

  lemma ListedSplits(cs: seq<Input>)
    requires cs != [] && AllListed(cs)
    ensures AllListed(cs[..|cs| - 1])
  {
    hide Listed;
  }

  lemma PromptSplits(cs: seq<Input>, d: real)
    requires cs != [] && Prompt(cs, d)
    ensures Prompt(cs[..|cs| - 1], d) && 0.0 <= cs[|cs| - 1].fault.delay <= d
  {
  }

  /** Each restart has an attempt of its own, in every window of stamps. */
  lemma {:induction false} RestartsAreAttempts(cs: seq<Input>, service: string, lo: real, width: real)
    requires AllListed(cs)
    ensures multiset(Stamps(Restarts(cs, service))) <= multiset(Attempts(cs, service))
    ensures Within(Stamps(Restarts(cs, service)), lo, width) <= Within(Attempts(cs, service), lo, width)
  {
    hide *;
    if cs == [] {
      NothingDone(service, lo, width);
    } else {
      var init, c := cs[..|cs| - 1], cs[|cs| - 1];
      ListedSplits(cs);
      RestartsAreAttempts(init, service, lo, width);
      LastStep(cs, service);
      var r, a := Restarts(init, service), Attempts(init, service);
      DoneAppend(r, c);
      AppendKeepsSub(Stamps(r), a, c.now);
      WithinAppend(Stamps(r), c.now, lo, width);
      WithinAppend(a, c.now, lo, width);
    }
  }

  /** In every window of real times there are no more restarts than attempts in the
      window that starts a delay earlier. */
  lemma {:induction false} RestartsFollowAttempts(cs: seq<Input>, service: string, d: real, lo: real, width: real)
    requires AllListed(cs) && Prompt(cs, d)
    ensures Within(Moments(Restarts(cs, service)), lo, width) <= Within(Attempts(cs, service), lo - d, width + d)
  {
    hide *;
    if cs == [] {
      NothingDone(service, lo, width);
    } else {
      var init, c := cs[..|cs| - 1], cs[|cs| - 1];
      ListedSplits(cs);
      PromptSplits(cs, d);
      RestartsFollowAttempts(init, service, d, lo, width);
      LastStep(cs, service);
      var r, a := Restarts(init, service), Attempts(init, service);
      DoneAppend(r, c);
      WithinAppend(Moments(r), c.now + c.fault.delay, lo, width);
      WithinAppend(a, c.now, lo - d, width + d);
    }
  }

  lemma DoneAppend(r: seq<Done>, c: Input)
    ensures Stamps(r + [DoneBy(c)]) == Stamps(r) + [c.now]
    ensures Moments(r + [DoneBy(c)]) == Moments(r) + [c.now + c.fault.delay]
  {
  }

  lemma AppendKeepsSub(r: seq<real>, a: seq<real>, x: real)
    requires multiset(r) <= multiset(a)
    ensures multiset(r) <= multiset(a + [x]) && multiset(r + [x]) <= multiset(a + [x])
  {
  }

  lemma WithinAppend(t: seq<real>, x: real, lo: real, width: real)
    ensures Within(t + [x], lo, width) == Within(t, lo, width) + if lo <= x < lo + width then 1 else 0
  {
    assert (t + [x])[..|t|] == t;
  }

  /** The promise of the watchdog, for any run of cycles with any crashes and failures:
      a watched service is restarted only on a saved attempt, attempts are at least
      900 s apart, and any window of the given length holds at most two attempts per
      started hour. */
  lemma RestartBudget(cs: seq<Input>, service: string, lo: real, width: real, hours: nat)
    requires cs != [] && Run(cs) && Watched(cs, service)
    requires 0.0 <= width <= HOUR * hours as real
    ensures Spaced(Attempts(cs, service))
    ensures multiset(Stamps(Restarts(cs, service))) <= multiset(Attempts(cs, service))
    ensures Within(Stamps(Restarts(cs, service)), lo, width) <= Within(Attempts(cs, service), lo, width) <= 2 * hours
  {
    hide Attempts, Restarts, Spaced, Past, Within, Assessments, Cycle, DiskAfter;
    RunKeepsLedger(cs, service);
    LongBudget(Attempts(cs, service), cs[|cs| - 1].now, lo, width, hours);
    RestartsAreAttempts(cs, service, lo, width);
  }

  /** When restarts really happen, if each takes effect within d of its cycle's clock
      reading: the budget of h hours holds in windows shorter by d, and windows up to a
      cooldown longer than those hold at most one restart more. */
  lemma RealRestartBudget(cs: seq<Input>, service: string, d: real, lo: real, width: real, hours: nat)
    requires cs != [] && Run(cs) && Watched(cs, service) && Prompt(cs, d)
    requires 0.0 <= width
    ensures var n := Within(Moments(Restarts(cs, service)), lo, width);
            && (width + d <= HOUR * hours as real ==> n <= 2 * hours)
            && (width + d <= HOUR * hours as real + COOLDOWN ==> n <= 2 * hours + 1)
  {
    hide *;
    DelayBound(cs, d);
    RunSplits(cs, service);
    RunKeepsLedger(cs, service);
    RestartsFollowAttempts(cs, service, d, lo, width);
    LedgerBudget(Before(DiskAfter(cs), service), Attempts(cs, service), Assessments(cs, service), cs[|cs| - 1].now,
                 lo - d, width + d, hours);
  }

  lemma DelayBound(cs: seq<Input>, d: real)
    requires cs != [] && Prompt(cs, d)
    ensures d >= 0.0
  {
    assert 0.0 <= cs[0].fault.delay <= d;
  }

  lemma LedgerBudget(row: Row, t: seq<real>, log: seq<bool>, now: real, lo: real, width: real, hours: nat)
    requires Ledger(row, t, log, now) && 0.0 <= width
    ensures width <= HOUR * hours as real ==> Within(t, lo, width) <= 2 * hours
    ensures width <= HOUR * hours as real + COOLDOWN ==> Within(t, lo, width) <= 2 * hours + 1
  {
    hide Spaced, Past, Remembers, Within;
    if width <= HOUR * hours as real {
      LongBudget(t, now, lo, width, hours);
    }
    if width <= HOUR * hours as real + COOLDOWN {
      LongerBudget(t, now, lo, width, hours);
    }
  }

  // ---------- three restarts in an hour ----------

  const SICK := "dashboard-tls"

  /** A fault-free cycle over one unhealthy service that is up since start. */
  function Sick(now: real, start: real, delay: real): Input {
    Input(map[SICK := Container(true, "unhealthy", Some(start))], [SICK], true, now, Fault(true, Returned, true, delay))
  }

  lemma SickCycle(prev: Disk, now: real, start: real, delay: real)
    requires now - start >= MIN_UPTIME
    ensures var was, o := Before(prev, SICK), Cycle(prev, Sick(now, start, delay));
            var history := Recent(was.restarts, now);
            var due := was.failures >= 2 && |history| < 2 && forall t :: t in history ==> now - t >= COOLDOWN;
            && Before(o.disk, SICK).failures == was.failures + 1
            && Before(o.disk, SICK).restarts == (if due then history + [now] else history)
            && (SICK in o.restarts <==> due)
  {
    var c, was := Sick(now, start, delay), Before(prev, SICK);
    RestartExactly(SICK, c.containers[SICK], was, now);
    hide Assess, Recent;
    AssessParts(SICK, c.containers[SICK], was, now);
    assert Sweep(prev, c, 1) == Visit(prev, c, SICK, Sweep(prev, c, 0));
  }

  ghost predicate SickState(cs: seq<Input>, failures: nat, history: seq<real>, r: seq<Done>) {
    && AllListed(cs)
    && Before(DiskAfter(cs), SICK).failures == failures && Before(DiskAfter(cs), SICK).restarts == history
    && Restarts(cs, SICK) == r
  }

  lemma SickNext(cs: seq<Input>, failures: nat, history: seq<real>, r: seq<Done>, now: real, start: real, delay: real)
    requires SickState(cs, failures, history, r) && now - start >= MIN_UPTIME
    ensures var recent := Recent(history, now);
            var due := failures >= 2 && |recent| < 2 && forall t :: t in recent ==> now - t >= COOLDOWN;
            SickState(cs + [Sick(now, start, delay)], failures + 1, if due then recent + [now] else recent,
                      if due then r + [Done(now, now + delay)] else r)
  {
    hide Cycle, Recent;
    SickCycle(DiskAfter(cs), now, start, delay);
    var next := cs + [Sick(now, start, delay)];
    assert next[..|cs|] == cs && Listed(Sick(now, start, delay));
    assert r + [] == r;
  }

  /** Too few unhealthy assessments so far: nothing is restarted. */
  lemma SickWaits(cs: seq<Input>, failures: nat, now: real)
    requires SickState(cs, failures, [], []) && failures < 2 && now >= 0.0
    ensures SickState(cs + [Sick(now, -600.0, 0.0)], failures + 1, [], [])
  {
    hide SickState, Sick;
    SickNext(cs, failures, [], [], now, -600.0, 0.0);
  }

  lemma SickRestarts(cs: seq<Input>, failures: nat, history: seq<real>, recent: seq<real>, r: seq<Done>, now: real,
                     start: real, delay: real)
    requires SickState(cs, failures, history, r) && now - start >= MIN_UPTIME && failures >= 2
    requires Recent(history, now) == recent && |recent| < 2 && forall t :: t in recent ==> now - t >= COOLDOWN
    ensures SickState(cs + [Sick(now, start, delay)], failures + 1, recent + [now], r + [Done(now, now + delay)])
  {
    hide SickState, Sick, Recent;
    SickNext(cs, failures, history, r, now, start, delay);
  }

  /** Two unhealthy assessments, then attempts at 120 s, 1020 s and 3720 s, of which the
      first takes effect d late. */
  function LateRun(d: real): seq<Input> {
    [Sick(0.0, -600.0, 0.0), Sick(60.0, -600.0, 0.0), Sick(120.0, -600.0, d), Sick(1020.0, 120.0 + d, 0.0),
     Sick(3720.0, 1020.0, 0.0)]
  }

  lemma SickFresh(now: real)
    ensures SickState([], 0, [], []) && Recent([], now) == []
  {
  }

  lemma LateStart(d: real)
    ensures var a, b, c := Sick(0.0, -600.0, 0.0), Sick(60.0, -600.0, 0.0), Sick(120.0, -600.0, d);
            SickState([a, b, c], 3, [120.0], [Done(120.0, 120.0 + d)])
  {
    hide SickState, Sick, Recent;
    SickFresh(120.0);
    var a, b, c := Sick(0.0, -600.0, 0.0), Sick(60.0, -600.0, 0.0), Sick(120.0, -600.0, d);
    assert [] + [a] == [a] && [a] + [b] == [a, b] && [a, b] + [c] == [a, b, c];
    SickWaits([], 0, 0.0);
    SickWaits([a], 1, 60.0);
    SickRestarts([a, b], 2, [], [], [], 120.0, -600.0, d);
    assert [] + [120.0] == [120.0] && [] + [Done(120.0, 120.0 + d)] == [Done(120.0, 120.0 + d)];
  }

  lemma LateRecents()
    ensures Recent([120.0], 1020.0) == [120.0] && Recent([120.0, 1020.0], 3720.0) == [1020.0]
  {
    assert [120.0, 1020.0][..1] == [120.0];
  }

  lemma LateMiddle(d: real)
    requires 0.0 < d <= 90.0
    ensures var a, b, c := Sick(0.0, -600.0, 0.0), Sick(60.0, -600.0, 0.0), Sick(120.0, -600.0, d);
            SickState([a, b, c, Sick(1020.0, 120.0 + d, 0.0)], 4, [120.0, 1020.0],
                      [Done(120.0, 120.0 + d), Done(1020.0, 1020.0)])
  {
    var a, b, c := Sick(0.0, -600.0, 0.0), Sick(60.0, -600.0, 0.0), Sick(120.0, -600.0, d);
    var e, first := Sick(1020.0, 120.0 + d, 0.0), Done(120.0, 120.0 + d);
    hide SickState, Sick, Recent;
    LateStart(d);
    LateRecents();
    SickRestarts([a, b, c], 3, [120.0], [120.0], [first], 1020.0, 120.0 + d, 0.0);
    assert [a, b, c] + [e] == [a, b, c, e];
    assert [first] + [Done(1020.0, 1020.0)] == [first, Done(1020.0, 1020.0)];
    assert [120.0] + [1020.0] == [120.0, 1020.0];
  }

  lemma LateRestarts(d: real)
    requires 0.0 < d <= 90.0
    ensures SickState(LateRun(d), 5, [1020.0, 3720.0],
                      [Done(120.0, 120.0 + d), Done(1020.0, 1020.0), Done(3720.0, 3720.0)])
  {
    var cs := LateRun(d);
    var r := [Done(120.0, 120.0 + d), Done(1020.0, 1020.0)];
    assert cs[..4] + [Sick(3720.0, 1020.0, 0.0)] == cs;
    assert cs[..4] == [cs[0], cs[1], cs[2], cs[3]];
    LateMiddle(d);
    LateRecents();
    hide SickState, Sick, Recent, LateRun;
    SickRestarts(cs[..4], 4, [120.0, 1020.0], [1020.0], r, 3720.0, 1020.0, 0.0);
    assert [1020.0] + [3720.0] == [1020.0, 3720.0];
    assert r + [Done(3720.0, 3720.0)] == [Done(120.0, 120.0 + d), Done(1020.0, 1020.0), Done(3720.0, 3720.0)];
  }

  lemma SickListed(now: real, start: real, delay: real)
    ensures var c := Sick(now, start, delay);
            Listed(c) && SICK in c.order && c.now == now && c.fault.delay == delay
  {
    assert Sick(now, start, delay).order[0] == SICK;
  }

  lemma LateRunKept(d: real)
    requires 0.0 < d <= 90.0
    ensures Run(LateRun(d)) && Watched(LateRun(d), SICK) && Prompt(LateRun(d), d)
  {
    SickListed(0.0, -600.0, 0.0);
    SickListed(60.0, -600.0, 0.0);
    SickListed(120.0, -600.0, d);
    SickListed(1020.0, 120.0 + d, 0.0);
    SickListed(3720.0, 1020.0, 0.0);
    hide Listed, Sick;
  }

  lemma ThreeWithin(t: seq<real>, lo: real, width: real)
    requires |t| == 3 && forall k :: 0 <= k < 3 ==> lo <= t[k] < lo + width
    ensures Within(t, lo, width) == 3
  {
    assert t == ([t[0]] + [t[1]]) + [t[2]] && [] + [t[0]] == [t[0]];
    WithinAppend([], t[0], lo, width);
    WithinAppend([t[0]], t[1], lo, width);
    WithinAppend([t[0]] + [t[1]], t[2], lo, width);
  }

  /** Any delay at all lets three restarts fall within one hour, although their attempts
      keep to the budget: the first one is late, the third is not. */
  lemma DelayBreaksTheHour(d: real)
    requires 0.0 < d <= 90.0
    ensures var cs := LateRun(d);
            && Run(cs) && Watched(cs, SICK) && Prompt(cs, d)
            && Within(Moments(Restarts(cs, SICK)), 120.0 + d, HOUR) == 3
  {
    LateRunKept(d);
    LateRestarts(d);
    hide Restarts, Run, Watched, Prompt, LateRun, Within;
    ThreeWithin(Moments(Restarts(LateRun(d), SICK)), 120.0 + d, HOUR);
  }

  // ---------- what the promise rests on ----------

  /** A clock that runs back forgets the attempts it has overtaken, so a service
      that used up its budget is restarted again. */
  lemma ClockBackForgets(service: string, c: Container, previous: Row, now: real)
    requires forall k :: 0 <= k < |previous.restarts| ==> now < previous.restarts[k]
    requires service in SERVICES && c.running && c.health == "unhealthy"
    requires Uptime(c, now) >= MIN_UPTIME && previous.failures >= 2
    ensures Assess(service, c, previous, now).restarts == []
    ensures Assess(service, c, previous, now).action == Restart
  {
    NoneRecent(previous.restarts, now);
    RestartExactly(service, c, previous, now);
  }

  /** A service without a container loses its history at the next final save. */
  lemma AbsentServiceForgets(prev: Disk, c: Input, service: string)
    requires Listed(c) && service !in c.order && c.apply && c.fault.finalSave
    requires !Sweep(prev, c, |c.order|).halted
    ensures Before(Cycle(prev, c).disk, service).restarts == []
    ensures Before(Cycle(prev, c).disk, service).failures == 0
  {
    hide Visit;
    SweepRows(prev, c, |c.order|);
    assert c.order[..|c.order|] == c.order;
    assert Assess(service, MISSING, UNKNOWN, c.now).restarts == [];
  }

  lemma {:induction false} SweepRows(prev: Disk, c: Input, n: nat)
    requires Listed(c) && n <= |c.order|
    ensures forall x :: x in Sweep(prev, c, n).rows ==> x in c.order[..n]
  {
    hide AssessNow;
    if n > 0 {
      SweepRows(prev, c, n - 1);
      assert c.order[..n] == c.order[..n - 1] + [c.order[n - 1]];
    }
  }
}
