/** Exactly which service a cycle restarts, and what it writes: a read-only cycle does
    neither, and an applied one acts on the first service that is due. */
module WatchdogCycle {
  import opened Common
  import opened Watchdog
  import opened WatchdogLaws

  /** Governed, running, up for ten minutes, unhealthy for the third time in a row, with
      fewer than two attempts in the last hour and none in the last fifteen minutes. */
  ghost predicate Due(service: string, c: Container, previous: Row, now: real) {
    && service in SERVICES && c.running && c.health == "unhealthy"
    && c.startedAt.Some? && now - c.startedAt.value >= 600.0
    && previous.failures >= 2
    && |Recent(previous.restarts, now)| < 2
    && forall t :: t in previous.restarts && t <= now ==> now - t >= 900.0
  }

  /** The attempts the budget counts are those of the last hour. */
  lemma {:induction false} RecentExactly(times: seq<real>, now: real, t: real)
    ensures t in Recent(times, now) <==> t in times && 0.0 <= now - t < 3600.0
  {
    if times != [] {
      RecentExactly(times[..|times| - 1], now, t);
      assert times == times[..|times| - 1] + [times[|times| - 1]];
    }
  }

  lemma DueExactly(service: string, c: Container, previous: Row, now: real)
    ensures Assess(service, c, previous, now).action == Restart <==> Due(service, c, previous, now)
  {
    RestartExactly(service, c, previous, now);
    forall t ensures t in Recent(previous.restarts, now) <==> t in previous.restarts && 0.0 <= now - t < 3600.0 {
      RecentExactly(previous.restarts, now, t);
    }
    hide Recent, Assess;
  }

  ghost predicate DueAt(prev: Disk, c: Input, k: nat)
    requires Listed(c) && k < |c.order|
  {
    Due(c.order[k], c.containers[c.order[k]], Before(prev, c.order[k]), c.now)
  }

  ghost predicate NoneDue(prev: Disk, c: Input, n: nat)
    requires Listed(c) && n <= |c.order|
  {
    forall k :: 0 <= k < n ==> !DueAt(prev, c, k)
  }

  ghost predicate FirstDue(prev: Disk, c: Input, k: nat)
    requires Listed(c) && k < |c.order|
  {
    DueAt(prev, c, k) && NoneDue(prev, c, k)
  }

  lemma ActsOnDue(prev: Disk, c: Input, k: nat)
    requires Listed(c) && k < |c.order|
    ensures c.order[k] in c.containers
    ensures AssessNow(prev, c, c.order[k]).action == Restart <==> DueAt(prev, c, k)
  {
    DueExactly(c.order[k], c.containers[c.order[k]], Before(prev, c.order[k]), c.now);
    hide Due, Assess;
  }

  /** The call restarted the service, whether or not the watchdog learned of it. */
  predicate Took(d: Docker) {
    d == Returned || d == DiedAfter || d == Failed(true)
  }

  /** Before anything is acted on, only rows are collected. */
  ghost predicate Untouched(prev: Disk, p: Progress) {
    !p.halted && !p.recovered && p.disk == prev && p.attempts == [] && p.restarts == [] && p.saved == {}
  }

  /** After the service at position k was acted on. */
  ghost predicate Acted(prev: Disk, c: Input, k: nat, p: Progress)
    requires k < |c.order|
  {
    && p.halted == !(c.fault.preSave && c.fault.docker == Returned)
    && p.recovered == (c.fault.preSave && c.fault.docker == Returned)
    && p.attempts == (if c.fault.preSave then [c.order[k]] else [])
    && p.restarts == (if c.fault.preSave && Took(c.fault.docker) then [c.order[k]] else [])
    && (!c.fault.preSave ==> p.disk == prev)
    && (c.fault.preSave ==> c.order[k] in p.disk && c.now in p.disk[c.order[k]].restarts)
  }

  lemma {:induction false} SweepUntouched(prev: Disk, c: Input, n: nat)
    requires Listed(c) && n <= |c.order| && (!c.apply || NoneDue(prev, c, n))
    ensures Untouched(prev, Sweep(prev, c, n))
  {
    hide AssessNow, DueAt;
    if n > 0 {
      SweepUntouched(prev, c, n - 1);
      ActsOnDue(prev, c, n - 1);
    }
  }

  lemma VisitActs(prev: Disk, c: Input, k: nat, p: Progress)
    requires Listed(c) && c.apply && k < |c.order| && DueAt(prev, c, k) && Untouched(prev, p)
    ensures Acted(prev, c, k, Visit(prev, c, c.order[k], p))
  {
    ActsOnDue(prev, c, k);
    hide AssessNow, DueAt;
  }

  lemma VisitStays(prev: Disk, c: Input, k: nat, x: string, p: Progress)
    requires Listed(c) && k < |c.order| && x in c.containers && Acted(prev, c, k, p)
    ensures Acted(prev, c, k, Visit(prev, c, x, p))
  {
    hide AssessNow;
  }

  lemma {:induction false} SweepActed(prev: Disk, c: Input, k: nat, n: nat)
    requires Listed(c) && c.apply && k < n <= |c.order| && FirstDue(prev, c, k)
    ensures Acted(prev, c, k, Sweep(prev, c, n))
    decreases n
  {
    hide Visit, DueAt, Acted, Untouched, Listed;
    ListedAt(c, n - 1);
    if n == k + 1 {
      SweepUntouched(prev, c, k);
      VisitActs(prev, c, k, Sweep(prev, c, k));
    } else {
      SweepActed(prev, c, k, n - 1);
      VisitStays(prev, c, k, c.order[n - 1], Sweep(prev, c, n - 1));
    }
  }

  /** A cycle without apply attempts, restarts and writes nothing. */
  lemma ReadOnlyTouchesNothing(prev: Disk, c: Input)
    requires Listed(c) && !c.apply
    ensures var o := Cycle(prev, c);
            o.attempts == [] && o.restarts == [] && o.disk == prev && o.saved == {}
  {
    hide Sweep, Missing;
    SweepUntouched(prev, c, |c.order|);
  }

  /** Nor does an applied one in which nothing is due, apart from saving its rows. */
  lemma NothingDueNothingDone(prev: Disk, c: Input)
    requires Listed(c) && NoneDue(prev, c, |c.order|)
    ensures Cycle(prev, c).attempts == [] && Cycle(prev, c).restarts == []
  {
    hide Sweep, Missing, NoneDue;
    SweepUntouched(prev, c, |c.order|);
  }

  /** Otherwise the first service that is due, and no other, is attempted if the save
      before it succeeds, and restarted if the call then takes effect. */
  lemma FirstDueIsRestarted(prev: Disk, c: Input, k: nat)
    requires Listed(c) && c.apply && k < |c.order| && FirstDue(prev, c, k)
    ensures var o := Cycle(prev, c);
            && o.attempts == (if c.fault.preSave then [c.order[k]] else [])
            && o.restarts == (if c.fault.preSave && Took(c.fault.docker) then [c.order[k]] else [])
            && (!c.fault.preSave ==> o.disk == prev)
  {
    hide Sweep, Missing, FirstDue;
    SweepActed(prev, c, k, |c.order|);
  }

  /** Over every run, each attempt is dated by a cycle that was told to apply and found
      the service due. */
  lemma {:induction false} AttemptsOnlyWhenApplied(cs: seq<Input>, service: string, t: real)
    requires AllListed(cs) && t in Attempts(cs, service)
    ensures exists k :: 0 <= k < |cs| && cs[k].apply && cs[k].now == t && service in cs[k].order
  {
    hide Cycle;
    var init, c := cs[..|cs| - 1], cs[|cs| - 1];
    if t in Attempts(init, service) {
      AttemptsOnlyWhenApplied(init, service, t);
      var k :| 0 <= k < |init| && init[k].apply && init[k].now == t && service in init[k].order;
      assert cs[k] == init[k];
    } else {
      assert service in Cycle(DiskAfter(init), c).attempts;
      AttemptedListed(DiskAfter(init), c, service);
    }
  }

  lemma AttemptedListed(prev: Disk, c: Input, service: string)
    requires Listed(c) && service in Cycle(prev, c).attempts
    ensures c.apply && service in c.order
  {
    if !c.apply {
      ReadOnlyTouchesNothing(prev, c);
    } else if NoneDue(prev, c, |c.order|) {
      NothingDueNothingDone(prev, c);
    } else {
      var k := FirstDuePosition(prev, c, |c.order|);
      hide Cycle, FirstDue;
      FirstDueIsRestarted(prev, c, k);
    }
  }

  lemma FirstDuePosition(prev: Disk, c: Input, n: nat) returns (k: nat)
    requires Listed(c) && n <= |c.order| && !NoneDue(prev, c, n)
    ensures k < n && FirstDue(prev, c, k)
  {
    hide DueAt;
    if NoneDue(prev, c, n - 1) {
      k := n - 1;
    } else {
      k := FirstDuePosition(prev, c, n - 1);
    }
  }

  // ---------- what a cycle leaves on disk ----------

  /** The row of the service at position m: as assessed, except that the first due one
      has its attempt and is awaiting health, and later due ones are put off. */
  ghost predicate RowWritten(prev: Disk, c: Input, m: nat, row: Row)
    requires Listed(c) && m < |c.order|
  {
    var assessed := AssessNow(prev, c, c.order[m]);
    if !DueAt(prev, c, m) then row == assessed && row.action != Restart
    else if NoneDue(prev, c, m)
    then row == assessed.(restarts := assessed.restarts + [c.now], action := RestartedPendingHealth)
    else row == assessed.(action := DeferredOnePerCycle)
  }

  ghost predicate RowsWritten(prev: Disk, c: Input, n: nat, p: Progress)
    requires Listed(c) && n <= |c.order|
  {
    && (p.recovered <==> !NoneDue(prev, c, n))
    && (forall x :: x in p.rows ==> x in c.order[..n])
    && forall m :: 0 <= m < n ==> c.order[m] in p.rows && RowWritten(prev, c, m, p.rows[c.order[m]])
  }

  lemma {:induction false} SweepWrites(prev: Disk, c: Input, n: nat)
    requires Listed(c) && c.apply && n <= |c.order| && !Sweep(prev, c, n).halted
    ensures RowsWritten(prev, c, n, Sweep(prev, c, n))
  {
    hide Visit, RowsWritten, Listed, NoneDue, DueAt, AssessNow;
    if n == 0 {
      NothingWritten(prev, c);
    } else {
      ListedAt(c, n - 1);
      StillRunning(prev, c, n);
      SweepWrites(prev, c, n - 1);
      VisitWrites(prev, c, n - 1, Sweep(prev, c, n - 1));
    }
  }

  lemma StillRunning(prev: Disk, c: Input, n: nat)
    requires Listed(c) && 0 < n <= |c.order| && !Sweep(prev, c, n).halted
    ensures !Sweep(prev, c, n - 1).halted
  {
    hide AssessNow;
  }

  lemma NothingWritten(prev: Disk, c: Input)
    requires Listed(c)
    ensures RowsWritten(prev, c, 0, Sweep(prev, c, 0))
  {
  }

  lemma VisitWrites(prev: Disk, c: Input, n: nat, p: Progress)
    requires Listed(c) && c.apply && n < |c.order| && RowsWritten(prev, c, n, p)
    requires !Visit(prev, c, c.order[n], p).halted
    ensures RowsWritten(prev, c, n + 1, Visit(prev, c, c.order[n], p))
  {
    VisitRow(prev, c, n, p);
    var q := Visit(prev, c, c.order[n], p);
    assert c.order[..n + 1] == c.order[..n] + [c.order[n]] && c.order[n] !in c.order[..n];
    hide Visit, DueAt, AssessNow, RowWritten;
    forall m | 0 <= m < n + 1 ensures c.order[m] in q.rows && RowWritten(prev, c, m, q.rows[c.order[m]]) {
      if m < n {
        assert c.order[m] in p.rows;
      }
    }
  }

  lemma VisitRow(prev: Disk, c: Input, n: nat, p: Progress)
    requires Listed(c) && c.apply && n < |c.order| && (p.recovered <==> !NoneDue(prev, c, n))
    requires !Visit(prev, c, c.order[n], p).halted
    ensures var q, x := Visit(prev, c, c.order[n], p), c.order[n];
            && (q.recovered <==> !NoneDue(prev, c, n + 1))
            && q.rows.Keys == p.rows.Keys + {x} && RowWritten(prev, c, n, q.rows[x])
            && forall y :: y in p.rows && y != x ==> q.rows[y] == p.rows[y]
  {
    ActsOnDue(prev, c, n);
    hide DueAt, AssessNow;
  }

  /** A cycle that runs to its final save leaves exactly the rows of the listed services
      and of the core ones that have no container. */
  lemma FinalRows(prev: Disk, c: Input)
    requires Listed(c) && c.apply && c.fault.finalSave && !Sweep(prev, c, |c.order|).halted
    ensures var o := Cycle(prev, c);
            && (forall m :: 0 <= m < |c.order| ==> c.order[m] in o.disk && RowWritten(prev, c, m, o.disk[c.order[m]]))
            && (forall s :: s in o.disk ==>
                s in c.order || (s in CORE && !o.disk[s].running && o.disk[s].restarts == []))
            && (forall s :: s in CORE ==> s in o.disk)
  {
    hide Sweep, RowWritten, Assess;
    SweepWrites(prev, c, |c.order|);
    assert CORE[..|CORE|] == CORE;
    forall s ensures Assess(s, MISSING, UNKNOWN, c.now).restarts == [] && !Assess(s, MISSING, UNKNOWN, c.now).running {
      AssessMissing(s, c.now);
    }
  }

  lemma AssessMissing(s: string, now: real)
    ensures var row := Assess(s, MISSING, UNKNOWN, now);
            row.restarts == [] && !row.running
  {
  }
}
