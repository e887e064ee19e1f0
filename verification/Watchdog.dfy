/** The service watchdog: a restart budget kept in a state file that is written
    before each restart, so that neither a crash nor a failed restart resets it. */
module Watchdog {
  import opened Common

  const MIN_UPTIME := 600.0
  const COOLDOWN := 900.0
  const HOUR := 3600.0
  const MAX_RESTARTS_PER_HOUR := 2

  const SERVICES: set<string> := {
    "multi-lane-shadow", "dashboard-tls", "pulse-recorder", "delta-recorder",
    "tick-lake-maintenance", "research-loop", "agent-job-runner",
    "agentic-research-os", "canonical-parity-evidence", "quote-parity-evidence",
    "execution-path-audit", "ml-pipeline-status", "scanner-evidence"}

  /** Services reported even when no container exists. */
  const CORE: seq<string> := ["multi-lane-shadow", "dashboard-tls", "pulse-recorder", "delta-recorder"]

  datatype Action =
    | NoAction | Excluded | StoppedOrMissing | Grace | BudgetSpent | CoolingDown
    | Restart | WouldRestart | DeferredOnePerCycle | RestartedPendingHealth

  /** startedAt is absent when the field is missing or unreadable. */
  datatype Container = Container(running: bool, health: string, startedAt: Option<real>)

  datatype Row = Row(running: bool, health: string, failures: nat, restarts: seq<real>, action: Action)

  /** The persisted rows by service. */
  type Disk = map<string, Row>

  const MISSING := Container(false, "unprobed", None)
  const UNKNOWN := Row(false, "unprobed", 0, [], NoAction)

  // ---------- the policy ----------

  /** The attempts of the last hour; future-dated ones are dropped as well. */
  function Recent(times: seq<real>, now: real): (r: seq<real>)
    ensures |r| <= |times|
    ensures forall t :: t in r ==> t in times && 0.0 <= now - t < HOUR
  {
    if times == [] then []
    else
      var init := Recent(times[..|times| - 1], now);
      var t := times[|times| - 1];
      if 0.0 <= now - t < HOUR then init + [t] else init
  }

  function Uptime(c: Container, now: real): real {
    if c.startedAt.Some? then now - c.startedAt.value else -1.0
  }

  function Assess(service: string, c: Container, previous: Row, now: real): Row {
    var history := Recent(previous.restarts, now);
    var failures := if c.health == "unhealthy" then previous.failures + 1 else 0;
    var action :=
      if service !in SERVICES then Excluded
      else if !c.running then StoppedOrMissing
      else if c.health == "unhealthy" then
        if Uptime(c, now) < MIN_UPTIME || failures < 3 then Grace
        else if |history| >= MAX_RESTARTS_PER_HOUR then BudgetSpent
        else if |history| > 0 && now - MaxOf(history) < COOLDOWN then CoolingDown
        else Restart
      else NoAction;
    Row(c.running, c.health, failures, history, action)
  }

  /** A restart is chosen exactly for a governed, running service that has been
      up long enough, is unhealthy for at least the third time in a row, has
      budget left in the last hour and is outside the cooldown. */
  lemma RestartExactly(service: string, c: Container, previous: Row, now: real)
    ensures var history := Recent(previous.restarts, now);
      Assess(service, c, previous, now).action == Restart <==>
        && service in SERVICES && c.running && c.health == "unhealthy"
        && Uptime(c, now) >= MIN_UPTIME && previous.failures + 1 >= 3
        && |history| < MAX_RESTARTS_PER_HOUR
        && forall t :: t in history ==> now - t >= COOLDOWN
  {
    var history := Recent(previous.restarts, now);
    if |history| > 0 {
      assert MaxOf(history) in history;
      assert forall k :: 0 <= k < |history| ==> history[k] <= MaxOf(history);
    }
  }

  // ---------- one cycle ----------

  /** What becomes of the docker call after the attempt was saved: the process
      dies before it, it fails or times out, or the process dies after it, or it
      returns. A failed call may have restarted the service. */
  datatype Docker = DiedBefore | Failed(restarted: bool) | DiedAfter | Returned

  /** preSave and finalSave say whether those writes reached the disk; delay is how
      long after the cycle read its clock the docker call restarted the service. */
  datatype Fault = Fault(preSave: bool, docker: Docker, finalSave: bool, delay: real)

  /** order lists the services that have a container, in the visiting order. */
  datatype Input = Input(
    containers: map<string, Container>,
    order: seq<string>,
    apply: bool,
    now: real,
    fault: Fault)

  /** saved holds the services whose assessment of this cycle reached the disk. */
  datatype Progress = Progress(
    rows: map<string, Row>,
    recovered: bool,
    halted: bool,
    disk: Disk,
    attempts: seq<string>,
    restarts: seq<string>,
    saved: set<string>)

  ghost predicate Listed(c: Input) {
    && (forall k :: 0 <= k < |c.order| ==> c.order[k] in c.containers)
    && (forall j, k :: 0 <= j < k < |c.order| ==> c.order[j] != c.order[k])
  }

  function Before(disk: Disk, service: string): Row {
    if service in disk then disk[service] else UNKNOWN
  }

  function AssessNow(prev: Disk, c: Input, service: string): Row
    requires service in c.containers
  {
    Assess(service, c.containers[service], Before(prev, service), c.now)
  }

  /** Visiting one service. */
  function Visit(prev: Disk, c: Input, service: string, p: Progress): Progress
    requires service in c.containers
  {
    if p.halted then p
    else
      var row := AssessNow(prev, c, service);
      if row.action != Restart then p.(rows := p.rows[service := row])
      else if !c.apply then p.(rows := p.rows[service := row.(action := WouldRestart)])
      else if p.recovered then p.(rows := p.rows[service := row.(action := DeferredOnePerCycle)])
      else
        var attempted := row.(restarts := row.restarts + [c.now]);
        var rows := p.rows[service := attempted];
        if !c.fault.preSave then p.(rows := rows, halted := true)
        else
          var q := p.(rows := rows, disk := prev + rows, saved := rows.Keys, attempts := p.attempts + [service]);
          match c.fault.docker
          case DiedBefore => q.(halted := true)
          case Failed(done) => q.(halted := true, restarts := if done then q.restarts + [service] else q.restarts)
          case DiedAfter => q.(halted := true, restarts := q.restarts + [service])
          case Returned => q.(rows := rows[service := attempted.(action := RestartedPendingHealth)],
                              recovered := true, restarts := q.restarts + [service])
  }

  function Sweep(prev: Disk, c: Input, n: nat): Progress
    requires Listed(c) && n <= |c.order|
  {
    if n == 0 then Progress(map[], false, false, prev, [], [], {})
    else Visit(prev, c, c.order[n - 1], Sweep(prev, c, n - 1))
  }

  /** Rows for the core services that have no container. */
  function Missing(rows: map<string, Row>, now: real, k: nat): (r: map<string, Row>)
    requires k <= |CORE|
    ensures forall s :: s in rows ==> s in r && r[s] == rows[s]
    ensures r.Keys == rows.Keys + set s | s in CORE[..k]
    ensures forall s :: s in r && s !in rows ==> r[s] == Assess(s, MISSING, UNKNOWN, now)
  {
    if k == 0 then rows
    else
      var r := Missing(rows, now, k - 1);
      assert CORE[..k] == CORE[..k - 1] + [CORE[k - 1]];
      if CORE[k - 1] in r then r else r[CORE[k - 1] := Assess(CORE[k - 1], MISSING, UNKNOWN, now)]
  }

  datatype Outcome = Outcome(disk: Disk, attempts: seq<string>, restarts: seq<string>, saved: set<string>)

  function Cycle(prev: Disk, c: Input): Outcome
    requires Listed(c)
  {
    var p := Sweep(prev, c, |c.order|);
    if p.halted || !c.apply || !c.fault.finalSave then Outcome(p.disk, p.attempts, p.restarts, p.saved)
    else
      var rows := Missing(p.rows, c.now, |CORE|);
      Outcome(rows, p.attempts, p.restarts, rows.Keys)
  }

  /** The loop of the source over the services that have a container. */
  method VisitAll(prev: Disk, c: Input) returns (p: Progress)
    requires Listed(c)
    ensures p == Sweep(prev, c, |c.order|)
  {
    hide Assess, Before, Listed;
    var rows: map<string, Row>, recovered, disk := map[], false, prev;
    var attempts: seq<string>, restarts: seq<string>, saved: set<string> := [], [], {};
    for i := 0 to |c.order|
      invariant Sweep(prev, c, i) == Progress(rows, recovered, false, disk, attempts, restarts, saved)
    {
      ListedAt(c, i);
      var service := c.order[i];
      var row := Assess(service, c.containers[service], Before(prev, service), c.now);
      if row.action == Restart {
        if !c.apply {
          row := row.(action := WouldRestart);
        } else if recovered {
          row := row.(action := DeferredOnePerCycle);
        } else {
          row := row.(restarts := row.restarts + [c.now]);
          rows := rows[service := row];
          if !c.fault.preSave {
            HaltedStays(prev, c, i + 1, |c.order|);
            return Progress(rows, recovered, true, disk, attempts, restarts, saved);
          }
          disk, saved, attempts := prev + rows, rows.Keys, attempts + [service];
          if c.fault.docker == DiedAfter || c.fault.docker == Returned || c.fault.docker == Failed(true) {
            restarts := restarts + [service];
          }
          if c.fault.docker != Returned {
            HaltedStays(prev, c, i + 1, |c.order|);
            return Progress(rows, recovered, true, disk, attempts, restarts, saved);
          }
          row := row.(action := RestartedPendingHealth);
          recovered := true;
        }
      }
      rows := rows[service := row];
    }
    p := Progress(rows, recovered, false, disk, attempts, restarts, saved);
  }

  lemma ListedAt(c: Input, i: nat)
    requires Listed(c) && i < |c.order|
    ensures c.order[i] in c.containers
  {
  }

  /** The whole cycle: the loop, the missing core services and the final save. */
  method RunCycle(prev: Disk, c: Input) returns (r: Outcome)
    requires Listed(c)
    ensures r == Cycle(prev, c)
  {
    hide Sweep, Listed, Assess;
    var p := VisitAll(prev, c);
    if p.halted {
      return Outcome(p.disk, p.attempts, p.restarts, p.saved);
    }
    var rows := p.rows;
    for k := 0 to |CORE|
      invariant rows == Missing(p.rows, c.now, k)
    {
      if CORE[k] !in rows {
        rows := rows[CORE[k] := Assess(CORE[k], MISSING, UNKNOWN, c.now)];
      }
    }
    if c.apply && c.fault.finalSave {
      r := Outcome(rows, p.attempts, p.restarts, rows.Keys);
    } else {
      r := Outcome(p.disk, p.attempts, p.restarts, p.saved);
    }
  }

  lemma {:induction false} HaltedStays(prev: Disk, c: Input, m: nat, n: nat)
    requires Listed(c) && m <= n <= |c.order| && Sweep(prev, c, m).halted
    ensures Sweep(prev, c, n) == Sweep(prev, c, m)
    decreases n
  {
    hide Assess;
    if m < n {
      HaltedStays(prev, c, m, n - 1);
    }
  }
}
