/** What holds after every run of the backend, whatever the order of its steps, with any number of
    restarts in between. */
module IncidentRuns {
  import opened JsonValues
  import opened Topology
  import opened RecoveryChecks
  import opened Records
  import opened Tools
  import opened Autonomy
  import opened Incidents
  import opened IncidentInvariants
  import Policy = AutonomyPolicy

  /** Only the status of one incident may change, and neither to waiting nor to resolved. */
  ghost predicate StatusOnly(b: Backend, c: Backend, i: string) {
    || c == b
    || (&& i in b.incidents && i in c.incidents && !c.incidents[i].status.WaitingForApproval?
       && !c.incidents[i].status.Resolved?
        && c == WithIncident(b, i, b.incidents[i].(status := c.incidents[i].status)))
  }

  lemma StatusShape(b: Backend, i: string, escalated: bool)
    ensures StatusOnly(b, ClaimInvestigation(b, i), i) && StatusOnly(b, StartInvestigation(b, i), i)
    ensures StatusOnly(b, Conclude(b, i, escalated), i) && StatusOnly(b, Fail(b, i), i)
  {
  }

  lemma StatusOnlyStep(settings: Settings, b: Backend, c: Backend, i: string)
    requires Invariant(settings, b) && StatusOnly(b, c, i)
    ensures IncidentInvariants.Step(settings, b, c)
  {
    if c != b { StatusStep(settings, b, i, c.incidents[i].status); }
  }

  lemma ApplyStatusStep(settings: Settings, b: Backend, e: Event, now: int)
    requires Invariant(settings, b) && (e.Claim? || e.Start? || e.Conclusion? || e.Failure?)
    ensures IncidentInvariants.Step(settings, b, Apply(settings, b, e, now))
  {
    StatusShape(b, e.i, if e.Conclusion? then e.escalated else false);
    StatusOnlyStep(settings, b, Apply(settings, b, e, now), e.i);
  }

  lemma ApplyAgentStep(settings: Settings, b: Backend, e: Event, now: int)
    requires Invariant(settings, b) && (e.Creation? || e.Observing? || e.Diagnosis? || e.Proposal?)
    ensures IncidentInvariants.Step(settings, b, Apply(settings, b, e, now))
  {
    match e
    case Creation(i, service) => CreateStep(settings, b, i, service);
    case Observing(i, tool, arguments, ok, result, o, precheck) =>
      RecordStep(settings, b, i,
        Observation(o, tool, arguments, ok, result, if precheck then Precheck else Investigation, now));
    case Diagnosis(i, ids) => DiagnoseStep(settings, b, i, ids);
    case Proposal(i, a, tool, arguments) => ProposeStep(settings, b, i, a, tool, arguments, now);
  }

  lemma ApplyOperatorStep(settings: Settings, b: Backend, e: Event, now: int)
    requires Invariant(settings, b)
    requires e.Approving? || e.Settling? || e.Rejecting?
    ensures IncidentInvariants.Step(settings, b, Apply(settings, b, e, now))
  {
    match e
    case Approving(a, n) => ApproveStep(settings, b, a, n, now);
    case Settling(n, ok) => SettleStep(settings, b, n, ok);
    case Rejecting(a) => RejectStep(settings, b, a);
  }

  lemma ApplyVerificationStep(settings: Settings, b: Backend, e: Event, now: int)
    requires Invariant(settings, b) && (e.Checking? || e.Attempting? || e.Finishing?)
    ensures IncidentInvariants.Step(settings, b, Apply(settings, b, e, now))
  {
    match e
    case Checking(i, action, n) => BeginVerificationStep(settings, b, i, action, n);
    case Attempting(n, ok, result, o) => AttemptStep(settings, b, n, ok, result, o, now);
    case Finishing(n) => FinishVerificationStep(settings, b, n, now);
  }

  lemma ApplyAutonomousStep(settings: Settings, b: Backend, e: Event, now: int)
    requires Invariant(settings, b) && (e.AutonomousClaim? || e.AutonomousSettling? || e.AutonomousFinishing?)
    ensures IncidentInvariants.Step(settings, b, Apply(settings, b, e, now))
  {
    match e
    case AutonomousClaim(i, a, tool, arguments, ids, n) =>
      ClaimAutonomousStep(settings, b, i, a, tool, arguments, ids, n, now);
    case AutonomousSettling(n, ok, result, o) => SettleAutonomousStep(settings, b, n, ok, result, o, now);
    case AutonomousFinishing(n) => FinishAutonomousStep(settings, b, n);
  }

  lemma ApplyOtherStep(settings: Settings, b: Backend, e: Event, now: int)
    requires Invariant(settings, b) && (e.Abandoning? || e.Restarting? || e.Sending?)
    ensures IncidentInvariants.Step(settings, b, Apply(settings, b, e, now))
  {
    match e
    case Abandoning(n) => AbandonStep(settings, b, n);
    case Restarting => RestartStep(settings, b);
    case Sending(n) => MarkSentStep(settings, b, n);
  }

  /** Every step of the backend keeps the invariant and lets rows only evolve. */
  lemma ApplyStep(settings: Settings, b: Backend, e: Event, now: int)
    requires Invariant(settings, b)
    ensures IncidentInvariants.Step(settings, b, Apply(settings, b, e, now))
  {
    if e.Claim? || e.Start? || e.Conclusion? || e.Failure? {
      ApplyStatusStep(settings, b, e, now);
    } else if e.Creation? || e.Observing? || e.Diagnosis? || e.Proposal? {
      ApplyAgentStep(settings, b, e, now);
    } else if e.Approving? || e.Settling? || e.Rejecting? {
      ApplyOperatorStep(settings, b, e, now);
    } else if e.Checking? || e.Attempting? || e.Finishing? {
      ApplyVerificationStep(settings, b, e, now);
    } else if e.AutonomousClaim? || e.AutonomousSettling? || e.AutonomousFinishing? {
      ApplyAutonomousStep(settings, b, e, now);
    } else {
      ApplyOtherStep(settings, b, e, now);
    }
  }

  const EMPTY: Backend := Backend(map[], map[], map[])

  /** A run: each event with the time at which it happens. */
  function Replay(settings: Settings, events: seq<(Event, int)>): Backend {
    if events == [] then EMPTY
    else
      var last := events[|events| - 1];
      Apply(settings, Replay(settings, events[..|events| - 1]), last.0, last.1)
  }

  lemma {:induction false} RunsKeepTheInvariant(settings: Settings, events: seq<(Event, int)>)
    ensures Invariant(settings, Replay(settings, events))
  {
    if events == [] {
      EmptyKeeps(settings);
    } else {
      var last := events[|events| - 1];
      RunsKeepTheInvariant(settings, events[..|events| - 1]);
      ApplyStep(settings, Replay(settings, events[..|events| - 1]), last.0, last.1);
    }
  }

  lemma {:induction false} RunsOnlyEvolve(settings: Settings, events: seq<(Event, int)>, k: nat)
    requires k <= |events|
    ensures Evolves(Replay(settings, events[..k]), Replay(settings, events))
  {
    if k == |events| {
      assert events[..k] == events;
    } else {
      var before := events[..|events| - 1];
      assert before[..k] == events[..k];
      RunsOnlyEvolve(settings, before, k);
      RunsKeepTheInvariant(settings, before);
      ApplyStep(settings, Replay(settings, before), events[|events| - 1].0, events[|events| - 1].1);
      EvolvesTransitively(Replay(settings, events[..k]), Replay(settings, before), Replay(settings, events));
    }
  }

  lemma ReplayStep(settings: Settings, events: seq<(Event, int)>, k: nat)
    requires k < |events|
    ensures Replay(settings, events[..k + 1])
      == Apply(settings, Replay(settings, events[..k]), events[k].0, events[k].1)
  {
    assert events[..k + 1][..k] == events[..k];
  }

  /** One event after any prefix keeps the invariant and lets rows only evolve. */
  lemma PrefixStep(settings: Settings, events: seq<(Event, int)>, k: nat)
    requires k < |events|
    ensures Invariant(settings, Replay(settings, events[..k])) && Invariant(settings, Replay(settings, events[..k + 1]))
    ensures Evolves(Replay(settings, events[..k]), Replay(settings, events[..k + 1]))
  {
    RunsKeepTheInvariant(settings, events[..k]);
    ReplayStep(settings, events, k);
    ApplyStep(settings, Replay(settings, events[..k]), events[k].0, events[k].1);
  }

  lemma PrefixEvolves(settings: Settings, events: seq<(Event, int)>, k: nat)
    requires k < |events|
    ensures ActionsConsistent(Replay(settings, events[..k]))
    ensures Evolves(Replay(settings, events[..k]), Replay(settings, events[..k + 1]))
  {
    PrefixStep(settings, events, k);
  }

  // --- How a recovery came about ---

  /** The event begins task `n`, a recovery without results. */
  predicate Begins(b: Backend, c: Backend, e: Event, n: nat) {
    && e.Checking? && e.n == n && n !in b.tasks && e.i in b.incidents && n in c.tasks && c.tasks[n].Verify?
    && c.tasks[n] == Verify(Recovery(e.action), e.i, c.tasks[n].checks, [], 0, |b.incidents[e.i].observations|)
  }

  /** What an attempt at a check records. */
  function Recorded(e: Event, c: Check, at: int): Observation
    requires e.Attempting?
  {
    Observation(e.id, c.tool, c.arguments, e.ok, e.result, Verification, at)
  }

  /** The event is an attempt of task `n`: it adds at most one result, at the place where the attempt is recorded. */
  predicate Attempts(b: Backend, c: Backend, e: Event, now: int, n: nat) {
    && e.Attempting? && e.n == n && n in b.tasks && b.tasks[n].Verify? && n in c.tasks && c.tasks[n].Verify?
    && var t, u := b.tasks[n], c.tasks[n];
       && u == t.(results := u.results, attempts := u.attempts) && t.incident in b.incidents
       && t.incident in c.incidents
       && var before, after := b.incidents[t.incident].observations, c.incidents[t.incident].observations;
          u.results == t.results
          || (&& |u.results| == |t.results| + 1 && u.results[..|t.results|] == t.results
              && var r := u.results[|t.results|];
                 r.at == |before| < |after| && after[r.at] == Recorded(e, r.check, now))
  }

  /** Task `n` is a recovery. */
  predicate Recovers(b: Backend, n: nat) {
    n in b.tasks && b.tasks[n].Verify? && b.tasks[n].purpose.Recovery?
  }

  lemma AttemptMoves(b: Backend, n: nat, ok: bool, result: Json, o: string, now: int)
    requires Attempt(b, n, ok, result, o, now) != b
    ensures Attempts(b, Attempt(b, n, ok, result, o, now), Attempting(n, ok, result, o), now, n)
    ensures forall m :: m != n && m in Attempt(b, n, ok, result, o, now).tasks ==>
      m in b.tasks && Attempt(b, n, ok, result, o, now).tasks[m] == b.tasks[m]
  {
  }

  lemma CheckingBegins(settings: Settings, b: Backend, i: string, action: Option<string>, n: nat)
    ensures var c := BeginVerification(settings, b, i, action, n);
      && (c.tasks == b.tasks || Begins(b, c, Checking(i, action, n), n))
      && forall m :: m != n && m in c.tasks ==> m in b.tasks && c.tasks[m] == b.tasks[m]
  {
  }

  /** Every other step leaves a recovery alone or ends it. */
  ghost predicate AddsNoRecovery(b: Backend, c: Backend) {
    forall n :: Recovers(c, n) ==> n in b.tasks && c.tasks[n] == b.tasks[n]
  }

  lemma AgentAddsNoRecovery(settings: Settings, b: Backend, e: Event, now: int)
    requires e.Creation? || e.Claim? || e.Start? || e.Observing? || e.Diagnosis? || e.Proposal? || e.Conclusion?
      || e.Failure?
    ensures AddsNoRecovery(b, Apply(settings, b, e, now))
  {
  }

  lemma OperatorAddsNoRecovery(settings: Settings, b: Backend, e: Event, now: int)
    requires e.Approving? || e.Settling? || e.Rejecting? || e.Finishing?
    ensures AddsNoRecovery(b, Apply(settings, b, e, now))
  {
  }

  lemma ClaimAddsNoRecovery(settings: Settings, b: Backend, e: Event, now: int)
    requires e.AutonomousClaim?
    ensures AddsNoRecovery(b, ClaimAutonomous(settings, b, e.i, e.a, e.tool, e.arguments, e.ids, e.n, now))
  {
  }

  lemma AutonomyAddsNoRecovery(settings: Settings, b: Backend, e: Event, now: int)
    requires e.AutonomousClaim? || e.AutonomousSettling? || e.AutonomousFinishing?
    ensures AddsNoRecovery(b, Apply(settings, b, e, now))
  {
    if e.AutonomousClaim? { ClaimAddsNoRecovery(settings, b, e, now); }
  }

  lemma EndsAddNoRecovery(settings: Settings, b: Backend, e: Event, now: int)
    requires e.Abandoning? || e.Restarting? || e.Sending?
    ensures AddsNoRecovery(b, Apply(settings, b, e, now))
  {
  }

  /** A recovery is begun by its own event, changed by attempts at its checks, and by nothing else. */
  lemma RecoveryMoves(settings: Settings, b: Backend, e: Event, now: int, n: nat)
    requires Recovers(Apply(settings, b, e, now), n)
    ensures var c := Apply(settings, b, e, now);
      (n in b.tasks && c.tasks[n] == b.tasks[n]) || Begins(b, c, e, n) || Attempts(b, c, e, now, n)
  {
    if e.Checking? {
      CheckingBegins(settings, b, e.i, e.action, e.n);
    } else if e.Attempting? {
      if Attempt(b, e.n, e.ok, e.result, e.id, now) != b { AttemptMoves(b, e.n, e.ok, e.result, e.id, now); }
    } else if e.Approving? || e.Settling? || e.Rejecting? || e.Finishing? {
      OperatorAddsNoRecovery(settings, b, e, now);
    } else if e.AutonomousClaim? || e.AutonomousSettling? || e.AutonomousFinishing? {
      AutonomyAddsNoRecovery(settings, b, e, now);
    } else if e.Abandoning? || e.Restarting? || e.Sending? {
      EndsAddNoRecovery(settings, b, e, now);
    } else {
      AgentAddsNoRecovery(settings, b, e, now);
    }
  }

  /** Event `j` is the attempt of task `n` that settled `r`: what it recorded stands in the incident's
      row `inc` where `r` says, which was the next free place then. */
  ghost predicate SettledAt(settings: Settings, events: seq<(Event, int)>, j: nat, n: nat, i: string, r: CheckResult,
                            inc: Incident)
    requires j < |events|
  {
    var b, e := Replay(settings, events[..j]), events[j].0;
    && e.Attempting? && e.n == n && i in b.incidents && |b.incidents[i].observations| == r.at < |inc.observations|
    && inc.observations[r.at] == Recorded(e, r.check, events[j].1)
  }

  /** An attempt after event `s`, among the first `k`, settled `r`. */
  ghost predicate Settled(settings: Settings, events: seq<(Event, int)>, s: nat, k: nat, n: nat, i: string,
                          r: CheckResult, inc: Incident)
    requires k <= |events|
  {
    exists j: nat | s < j < k :: SettledAt(settings, events, j, n, i, r, inc)
  }

  /** Event `s` began the recovery that task `n` runs after `k` events, when its incident had `since`
      observations, and each of its results was settled by an attempt of its own in between. */
  ghost predicate RanSince(settings: Settings, events: seq<(Event, int)>, s: nat, k: nat, n: nat, inc: Incident)
    requires s < k <= |events|
  {
    var before, b := Replay(settings, events[..s]), Replay(settings, events[..k]);
    && Recovers(b, n)
    && var t := b.tasks[n];
       && events[s].0 == Checking(t.incident, t.purpose.action, n) && n !in before.tasks
       && t.incident in before.incidents && |before.incidents[t.incident].observations| == t.since
       && forall m | 0 <= m < |t.results| :: Settled(settings, events, s, k, n, t.incident, t.results[m], inc)
  }

  /** What was recorded stays recorded. */
  lemma SettledStill(settings: Settings, events: seq<(Event, int)>, s: nat, k: nat, m: nat, n: nat, i: string,
                     r: CheckResult, x: Incident, y: Incident)
    requires k <= m <= |events| && Settled(settings, events, s, k, n, i, r, x) && IncidentMoves(x, y)
    ensures Settled(settings, events, s, m, n, i, r, y)
  {
    var j: nat :| s < j < k && SettledAt(settings, events, j, n, i, r, x);
    assert SettledAt(settings, events, j, n, i, r, y);
  }

  lemma RanStill(settings: Settings, events: seq<(Event, int)>, s: nat, k: nat, n: nat, x: Incident, y: Incident)
    requires s < k <= |events| && RanSince(settings, events, s, k, n, x) && IncidentMoves(x, y)
    ensures RanSince(settings, events, s, k, n, y)
  {
    var t := Replay(settings, events[..k]).tasks[n];
    forall m | 0 <= m < |t.results| ensures Settled(settings, events, s, k, n, t.incident, t.results[m], y) {
      SettledStill(settings, events, s, k, k, n, t.incident, t.results[m], x, y);
    }
  }

  /** One more event leaves a recovery as it ran, or settles one more check. */
  lemma RanLonger(settings: Settings, events: seq<(Event, int)>, s: nat, k: nat, n: nat, x: Incident, y: Incident)
    requires s < k < |events| && RanSince(settings, events, s, k, n, x) && IncidentMoves(x, y)
    requires var b, c := Replay(settings, events[..k]), Replay(settings, events[..k + 1]);
      && Recovers(c, n) && c.tasks[n] == b.tasks[n].(results := c.tasks[n].results, attempts := c.tasks[n].attempts)
      && b.tasks[n].results <= c.tasks[n].results
      && forall m | |b.tasks[n].results| <= m < |c.tasks[n].results| ::
           SettledAt(settings, events, k, n, c.tasks[n].incident, c.tasks[n].results[m], y)
    ensures RanSince(settings, events, s, k + 1, n, y)
  {
    var t, u := Replay(settings, events[..k]).tasks[n], Replay(settings, events[..k + 1]).tasks[n];
    forall m | 0 <= m < |u.results| ensures Settled(settings, events, s, k + 1, n, u.incident, u.results[m], y) {
      if m < |t.results| {
        assert u.results[m] == t.results[m];
        SettledStill(settings, events, s, k, k + 1, n, u.incident, u.results[m], x, y);
      }
    }
  }

  /** The recovery runs before and after the event, which leaves it alone or is an attempt of it. */
  predicate Continues(b: Backend, c: Backend, e: Event, now: int, n: nat) {
    && Recovers(b, n) && Recovers(c, n) && c.tasks[n].incident == b.tasks[n].incident
    && b.tasks[n].incident in b.incidents && b.tasks[n].incident in c.incidents
    && IncidentMoves(b.incidents[b.tasks[n].incident], c.incidents[b.tasks[n].incident])
    && (c.tasks[n] == b.tasks[n] || Attempts(b, c, e, now, n))
  }

  lemma ContinuedRan(settings: Settings, events: seq<(Event, int)>, s: nat, k: nat, n: nat)
    requires s < k < |events|
    requires Continues(Replay(settings, events[..k]), Replay(settings, events[..k + 1]), events[k].0, events[k].1, n)
    requires var b := Replay(settings, events[..k]);
      RanSince(settings, events, s, k, n, b.incidents[b.tasks[n].incident])
    ensures var c := Replay(settings, events[..k + 1]);
      RanSince(settings, events, s, k + 1, n, c.incidents[c.tasks[n].incident])
  {
    var b, c := Replay(settings, events[..k]), Replay(settings, events[..k + 1]);
    var i := b.tasks[n].incident;
    if c.tasks[n] != b.tasks[n] { AttemptSettles(settings, events, k, n); }
    RanLonger(settings, events, s, k, n, b.incidents[i], c.incidents[i]);
  }

  lemma AttemptSettles(settings: Settings, events: seq<(Event, int)>, k: nat, n: nat)
    requires k < |events|
    requires Attempts(Replay(settings, events[..k]), Replay(settings, events[..k + 1]), events[k].0, events[k].1, n)
    ensures var b, c := Replay(settings, events[..k]), Replay(settings, events[..k + 1]);
      var t, u := b.tasks[n], c.tasks[n];
      && u == t.(results := u.results, attempts := u.attempts) && t.results <= u.results
      && forall m | |t.results| <= m < |u.results| ::
           SettledAt(settings, events, k, n, u.incident, u.results[m], c.incidents[u.incident])
  {
  }

  lemma BegunRan(settings: Settings, events: seq<(Event, int)>, k: nat, n: nat)
    requires k < |events| && Begins(Replay(settings, events[..k]), Replay(settings, events[..k + 1]), events[k].0, n)
    requires var c := Replay(settings, events[..k + 1]); c.tasks[n].incident in c.incidents
    ensures var c := Replay(settings, events[..k + 1]);
      RanSince(settings, events, k, k + 1, n, c.incidents[c.tasks[n].incident])
  {
  }

  /** What event `k` does to a recovery that runs after it. */
  lemma MovesAt(settings: Settings, events: seq<(Event, int)>, k: nat, n: nat)
    requires k < |events| && Recovers(Replay(settings, events[..k + 1]), n)
    ensures var b, c := Replay(settings, events[..k]), Replay(settings, events[..k + 1]);
      && c.tasks[n].incident in c.incidents
      && (Begins(b, c, events[k].0, n) || Continues(b, c, events[k].0, events[k].1, n))
  {
    var b, c := Replay(settings, events[..k]), Replay(settings, events[..k + 1]);
    PrefixStep(settings, events, k);
    assert TaskSound(settings, c, c.tasks[n]);
    if n in b.tasks { assert TaskSound(settings, b, b.tasks[n]); }
    ReplayStep(settings, events, k);
    RecoveryMoves(settings, b, events[k].0, events[k].1, n);
  }

  /** Every recovery that runs was begun by an event of the run, and each of its results was settled by
      an attempt of its own since. */
  lemma {:induction false} RecoveryRan(settings: Settings, events: seq<(Event, int)>, k: nat, n: nat) returns (s: nat)
    requires k < |events| && Recovers(Replay(settings, events[..k + 1]), n)
    ensures var b := Replay(settings, events[..k + 1]);
      s <= k && b.tasks[n].incident in b.incidents
        && RanSince(settings, events, s, k + 1, n, b.incidents[b.tasks[n].incident])
    decreases k
  {
    MovesAt(settings, events, k, n);
    if Begins(Replay(settings, events[..k]), Replay(settings, events[..k + 1]), events[k].0, n) {
      s := k;
      BegunRan(settings, events, k, n);
    } else {
      assert k > 0 by { assert events[..0] == []; }
      s := RecoveryRan(settings, events, k - 1, n);
      ContinuedRan(settings, events, s, k, n);
    }
  }

  // --- What resolved means ---

  /** The incident is resolved after the step, and was not, or not by what it is resolved by then. */
  predicate BecomesResolved(b: Backend, c: Backend, i: string) {
    && i in c.incidents && c.incidents[i].status.Resolved?
    && !(&& i in b.incidents && b.incidents[i].status.Resolved?
         && b.incidents[i].verification == c.incidents[i].verification
         && b.incidents[i].resolvedAt == c.incidents[i].resolvedAt)
  }

  /** Task `n` is a finished recovery of the incident whose checks all passed, after no action or
      after a start or restart: a write that is no stop. */
  predicate RecoversBy(b: Backend, n: nat, i: string) {
    && Incidents.Finished(b, n) && b.tasks[n].incident == i && AllPassed(b.tasks[n].results)
    && b.tasks[n].purpose.Recovery?
    && var action := b.tasks[n].purpose.action;
       action.Some? ==>
         && action.value in b.actions && IsWrite(b.actions[action.value].tool)
         && !IsStop(b.actions[action.value].tool)
  }

  lemma AgentNeverResolves(settings: Settings, b: Backend, e: Event, now: int, i: string)
    requires e.Creation? || e.Claim? || e.Start? || e.Observing? || e.Diagnosis? || e.Proposal? || e.Conclusion?
      || e.Failure?
    ensures !BecomesResolved(b, Apply(settings, b, e, now), i)
  {
  }

  lemma ApproveNeverResolves(settings: Settings, b: Backend, a: string, n: nat, now: int, i: string)
    ensures !BecomesResolved(b, Approve(settings, b, a, n, now), i)
  {
  }

  lemma RepliesNeverResolve(b: Backend, n: nat, ok: bool, a: string, i: string)
    ensures !BecomesResolved(b, Settle(b, n, ok), i) && !BecomesResolved(b, Reject(b, a), i)
  {
  }

  lemma BeginningNeverResolves(settings: Settings, b: Backend, j: string, action: Option<string>, n: nat, i: string)
    ensures !BecomesResolved(b, BeginVerification(settings, b, j, action, n), i)
  {
  }

  lemma OperatorNeverResolves(settings: Settings, b: Backend, e: Event, now: int, i: string)
    requires e.Approving? || e.Settling? || e.Rejecting? || e.Checking?
    ensures !BecomesResolved(b, Apply(settings, b, e, now), i)
  {
    match e
    case Approving(a, n) => ApproveNeverResolves(settings, b, a, n, now, i);
    case Settling(n, ok) => RepliesNeverResolve(b, n, ok, "", i);
    case Rejecting(a) => RepliesNeverResolve(b, 0, false, a, i);
    case Checking(j, action, n) => BeginningNeverResolves(settings, b, j, action, n, i);
  }

  lemma AutonomyNeverResolves(settings: Settings, b: Backend, e: Event, now: int, i: string)
    requires e.Attempting? || e.AutonomousClaim? || e.AutonomousSettling? || e.AutonomousFinishing?
    ensures !BecomesResolved(b, Apply(settings, b, e, now), i)
  {
  }

  lemma EndsNeverResolve(settings: Settings, b: Backend, e: Event, now: int, i: string)
    requires e.Abandoning? || e.Restarting? || e.Sending?
    ensures !BecomesResolved(b, Apply(settings, b, e, now), i)
  {
  }

  lemma FinishingResolves(b: Backend, n: nat, now: int, i: string)
    requires ActionsConsistent(b) && BecomesResolved(b, FinishVerification(b, n, now), i)
    ensures RecoversBy(b, n, i) && i in b.incidents
    ensures var inc := FinishVerification(b, n, now).incidents[i];
      inc.verification == Checked(b.tasks[n].results, b.tasks[n].since) && inc.resolvedAt == Some(now)
  {
  }

  lemma OnlyFinishingResolves(settings: Settings, b: Backend, e: Event, now: int, i: string)
    requires BecomesResolved(b, Apply(settings, b, e, now), i)
    ensures e.Finishing?
  {
    if e.Approving? || e.Settling? || e.Rejecting? || e.Checking? {
      OperatorNeverResolves(settings, b, e, now, i);
    } else if e.Attempting? || e.AutonomousClaim? || e.AutonomousSettling? || e.AutonomousFinishing? {
      AutonomyNeverResolves(settings, b, e, now, i);
    } else if e.Abandoning? || e.Restarting? || e.Sending? {
      EndsNeverResolve(settings, b, e, now, i);
    } else if !e.Finishing? {
      AgentNeverResolves(settings, b, e, now, i);
    }
  }

  /** Event `k` finished the recovery that event `s` began; the row `inc` of its incident holds its
      results, which all passed, and the time. */
  ghost predicate ResolvedBy(settings: Settings, events: seq<(Event, int)>, s: nat, k: nat, i: string, inc: Incident)
    requires s < k < |events|
  {
    var b, e := Replay(settings, events[..k]), events[k].0;
    && e.Finishing? && RecoversBy(b, e.n, i) && RanSince(settings, events, s, k, e.n, inc)
    && inc.verification == Checked(b.tasks[e.n].results, b.tasks[e.n].since) && inc.resolvedAt == Some(events[k].1)
  }

  /** Event `k` resolved the incident as its row `inc` says. */
  ghost predicate ResolvedAt(settings: Settings, events: seq<(Event, int)>, k: nat, i: string, inc: Incident)
    requires k < |events|
  {
    exists s: nat | s < k :: ResolvedBy(settings, events, s, k, i, inc)
  }

  /** At every step of every run: an incident becomes resolved only by finishing a recovery of its own
      that the run began earlier, each of whose checks passed by an attempt since, and never by judging
      a stop. */
  lemma ResolvedOnlyByRecovery(settings: Settings, events: seq<(Event, int)>, k: nat, i: string)
    requires k < |events| && BecomesResolved(Replay(settings, events[..k]), Replay(settings, events[..k + 1]), i)
    ensures ResolvedAt(settings, events, k, i, Replay(settings, events[..k + 1]).incidents[i])
  {
    ResolvingEvent(settings, events, k, i);
    var n := events[k].0.n;
    assert k > 0 by { assert events[..0] == []; }
    var s := RecoveryRan(settings, events, k - 1, n);
    RanStill(settings, events, s, k, n, Replay(settings, events[..k]).incidents[i],
      Replay(settings, events[..k + 1]).incidents[i]);
    assert ResolvedBy(settings, events, s, k, i, Replay(settings, events[..k + 1]).incidents[i]);
  }

  lemma ResolvingEvent(settings: Settings, events: seq<(Event, int)>, k: nat, i: string)
    requires k < |events| && BecomesResolved(Replay(settings, events[..k]), Replay(settings, events[..k + 1]), i)
    ensures var b, c, e := Replay(settings, events[..k]), Replay(settings, events[..k + 1]), events[k].0;
      && e.Finishing? && RecoversBy(b, e.n, i) && i in b.incidents && IncidentMoves(b.incidents[i], c.incidents[i])
      && c.incidents[i].verification == Checked(b.tasks[e.n].results, b.tasks[e.n].since)
      && c.incidents[i].resolvedAt == Some(events[k].1)
  {
    var b, e, now := Replay(settings, events[..k]), events[k].0, events[k].1;
    PrefixEvolves(settings, events, k);
    ReplayStep(settings, events, k);
    OnlyFinishingResolves(settings, b, e, now, i);
    ResolvingStep(settings, b, e, now, i);
  }

  lemma ResolvingStep(settings: Settings, b: Backend, e: Event, now: int, i: string)
    requires ActionsConsistent(b) && e.Finishing? && BecomesResolved(b, Apply(settings, b, e, now), i)
    ensures RecoversBy(b, e.n, i) && i in b.incidents
    ensures var inc := Apply(settings, b, e, now).incidents[i];
      inc.verification == Checked(b.tasks[e.n].results, b.tasks[e.n].since) && inc.resolvedAt == Some(now)
  {
    FinishingResolves(b, e.n, now, i);
  }

  /** The step that resolved a resolved incident as it is. */
  lemma {:induction false} LastResolution(settings: Settings, events: seq<(Event, int)>, m: nat, i: string)
    returns (k: nat)
    requires m <= |events| && i in Replay(settings, events[..m]).incidents
      && Replay(settings, events[..m]).incidents[i].status.Resolved?
    ensures k < m && BecomesResolved(Replay(settings, events[..k]), Replay(settings, events[..k + 1]), i)
    ensures var x, y := Replay(settings, events[..k + 1]).incidents[i], Replay(settings, events[..m]).incidents[i];
      IncidentMoves(x, y) && x.verification == y.verification && x.resolvedAt == y.resolvedAt
    decreases m
  {
    assert m > 0;
    PrefixEvolves(settings, events, m - 1);
    if BecomesResolved(Replay(settings, events[..m - 1]), Replay(settings, events[..m]), i) {
      k := m - 1;
    } else {
      k := LastResolution(settings, events, m - 1, i);
    }
  }

  /** The result is of this check: the same tool, the same arguments and the same expectations. */
  predicate Checks(r: CheckResult, c: Check) {
    r.check.tool == c.tool && Same(r.check.arguments, c.arguments) && Same(JObj(r.check.expected), JObj(c.expected))
  }

  lemma PassedHolds(inc: Incident, r: CheckResult, since: nat, f: Field)
    requires ShownSince(inc, r, since) && r.passed && f in r.check.expected
    ensures Holds(inc.observations[r.at].result, f)
  {
    MatchesExactly(inc.observations[r.at].result, r.check.expected);
  }

  /** After every run a resolved incident has its time, nothing pending, and a stored verification that
      covers every check of every reachable service; all of its results passed, each by an observation
      in which every expected path leads to its value, recorded since that verification began, by an
      attempt at its check that the run made between the verification's first event and its last. */
  lemma ResolvedMeansRecovered(settings: Settings, events: seq<(Event, int)>, i: string)
    requires i in Replay(settings, events).incidents && Replay(settings, events).incidents[i].status.Resolved?
    ensures var b := Replay(settings, events);
      var inc := b.incidents[i];
      var results, since := inc.verification.results, inc.verification.since;
      && (forall a :: a in b.actions && b.actions[a].incident == i ==> !b.actions[a].approval.Pending?)
      && AllPassed(results) && Witnessed(inc, results, since)
      && (forall r, f :: r in results && f in r.check.expected ==> Holds(inc.observations[r.at].result, f))
      && (forall c :: ReachableCheck(settings.topology, inc.service, c) ==> exists r :: r in results && Checks(r, c))
      && exists k: nat | k < |events| :: ResolvedAt(settings, events, k, i, inc)
  {
    RunsKeepTheInvariant(settings, events);
    var b := Replay(settings, events);
    var inc := b.incidents[i];
    forall a | a in b.actions && b.actions[a].incident == i ensures !b.actions[a].approval.Pending? {
      assert a !in PendingIds(b.actions, i);
    }
    assert Recovered(settings.topology, inc);
    var results := inc.verification.results;
    forall r, f | r in results && f in r.check.expected ensures Holds(inc.observations[r.at].result, f) {
      PassedHolds(inc, r, inc.verification.since, f);
    }
    forall c | ReachableCheck(settings.topology, inc.service, c) ensures exists r :: r in results && Checks(r, c) {
      var r := ResultOf(results, CheckText(c));
      CheckTextExactly(r.check, c);
      assert Checks(r, c);
    }
    ResolvedByItsRun(settings, events, i);
  }

  lemma ResolvedByItsRun(settings: Settings, events: seq<(Event, int)>, i: string)
    requires i in Replay(settings, events).incidents && Replay(settings, events).incidents[i].status.Resolved?
    ensures exists k: nat | k < |events| :: ResolvedAt(settings, events, k, i, Replay(settings, events).incidents[i])
  {
    assert events[..|events|] == events;
    var k := LastResolution(settings, events, |events|, i);
    var x, y := Replay(settings, events[..k + 1]).incidents[i], Replay(settings, events).incidents[i];
    ResolvedOnlyByRecovery(settings, events, k, i);
    var s: nat :| s < k && ResolvedBy(settings, events, s, k, i, x);
    RanStill(settings, events, s, k, events[k].0.n, x, y);
    assert ResolvedBy(settings, events, s, k, i, y) && ResolvedAt(settings, events, k, i, y);
  }

  lemma ResultOf(results: seq<CheckResult>, text: string) returns (r: CheckResult)
    requires text in Texts(ResultChecks(results))
    ensures r in results && CheckText(r.check) == text
  {
    var checks := ResultChecks(results);
    var k :| 0 <= k < |Texts(checks)| && Texts(checks)[k] == text;
    r := results[k];
  }

  // --- What waiting means, and how approvals move ---

  lemma WaitingMeansPending(settings: Settings, events: seq<(Event, int)>, i: string)
    requires i in Replay(settings, events).incidents && Replay(settings, events).incidents[i].status.WaitingForApproval?
    ensures var b := Replay(settings, events);
      exists a :: a in b.actions && b.actions[a].incident == i && b.actions[a].approval.Pending?
        && !b.actions[a].executed
  {
    RunsKeepTheInvariant(settings, events);
    var b := Replay(settings, events);
    var a :| a in PendingIds(b.actions, i);
    assert b.actions[a].approval.Pending?;
  }

  /** After any prefix of a run: a decided approval is decided for good, an undecided one is only
      ever approved, rejected or expired, and what the action would do never changes. */
  lemma ApprovalsAreDecidedOnce(settings: Settings, events: seq<(Event, int)>, k: nat, a: string)
    requires k <= |events| && a in Replay(settings, events[..k]).actions
    ensures a in Replay(settings, events).actions
    ensures var x, y := Replay(settings, events[..k]).actions[a], Replay(settings, events).actions[a];
      && (x.approval.Pending? ==> y.approval in {Pending, Approved, Rejected, Expired})
      && (!x.approval.Pending? ==> y.approval == x.approval && y.executed == x.executed)
      && (y.executed <==> y.approval in {Approved, AutoAuthorized})
      && (y.approval.Approved? ==> y.claimedAt < y.expires)
      && y.tool == x.tool && y.arguments == x.arguments && y.incident == x.incident
  {
    RunsOnlyEvolve(settings, events, k);
    RunsKeepTheInvariant(settings, events);
    assert ActionMoves(Replay(settings, events[..k]).actions[a], Replay(settings, events).actions[a]);
    RunsKeepTheInvariant(settings, events[..k]);
  }

  // --- What the agent did by itself ---

  /** Evidence that warrants the action: stored with it, taken from its incident in order, fresh when it
      was claimed, and such that every rule of the policy holds on it. */
  ghost predicate Warrants(settings: Settings, inc: Incident, a: Action, evidence: seq<Observation>) {
    && Ids(evidence) == a.evidence && Policy.InOrder(evidence, inc.observations)
    && (forall o :: o in evidence ==> o.at >= a.claimedAt - 15 * 60)
    && var target := GetOrNull(a.arguments, Policy.Kind(a.tool));
       target.JStr? && Policy.Warranted(settings.text, a.tool, target.s, evidence)
  }

  lemma GroundsWarrant(settings: Settings, inc: Incident, a: Action, evidence: seq<Observation>)
    requires a.tool in Policy.BY_ITSELF && GetOrNull(a.arguments, Policy.Kind(a.tool)).JStr?
    requires Grounds(settings, inc, a, evidence)
    ensures Warrants(settings, inc, a, evidence)
  {
    var target := GetOrNull(a.arguments, Policy.Kind(a.tool)).s;
    Policy.EvidenceAllowsExactly(settings, a.tool, a.arguments, target, evidence);
  }

  /** Every action the agent took without an operator: both switches were on; it starts or restarts a
      container or a unit; the registry offers it at low risk for these arguments and, where it lists the
      targets that need no operator, lists this one; the target is in the incident's reachable topology; and
      the evidence it stored warrants it by every rule of the policy. */
  lemma AutonomousActionsAreJustified(settings: Settings, events: seq<(Event, int)>, a: string)
    requires a in Replay(settings, events).actions && !Replay(settings, events).actions[a].requiresApproval
    ensures var b := Replay(settings, events);
      var x := b.actions[a];
      && settings.writes && settings.autonomy
      && x.incident in b.incidents && x.tool in Policy.BY_ITSELF && x.approval.AutoAuthorized?
      && Offers(settings, x.tool, x.arguments, LowRiskWrite)
      && var inc, target := b.incidents[x.incident], GetOrNull(x.arguments, Policy.Kind(x.tool));
         && target.JStr? && target.s in ProfileTargets(settings.topology, inc.service)
         && (settings.registry[x.tool].autonomousTargets.Some? ==>
             target.s in settings.registry[x.tool].autonomousTargets.value)
         && exists evidence :: Warrants(settings, inc, x, evidence)
  {
    RunsKeepTheInvariant(settings, events);
    var b := Replay(settings, events);
    var x := b.actions[a];
    JustifiedIsWarranted(settings, b.incidents[x.incident], x);
  }

  lemma JustifiedIsWarranted(settings: Settings, inc: Incident, x: Action)
    requires Justified(settings, inc, x)
    ensures x.tool in Policy.BY_ITSELF && TargetKey(x.tool) == Policy.Kind(x.tool)
    ensures exists evidence :: Warrants(settings, inc, x, evidence)
  {
    Policy.ByItselfExactly(x.tool);
    Policy.KindsAndKeys(x.tool);
    var evidence: seq<Observation> :| Grounds(settings, inc, x, evidence);
    GroundsWarrant(settings, inc, x, evidence);
  }

  /** The autonomous actions of one incident have distinct targets of their kind, and there are no
      more of them than configured. */
  lemma AutonomousActionsAreBounded(settings: Settings, events: seq<(Event, int)>, i: string)
    ensures var b := Replay(settings, events);
      && |AutonomousIds(b.actions, i)| <= settings.maxActions
      && forall a, c :: a in AutonomousIds(b.actions, i) && c in AutonomousIds(b.actions, i) && a != c ==>
           !(TargetKey(b.actions[a].tool) == TargetKey(b.actions[c].tool)
             && SameTarget(b.actions[a], b.actions[c].tool, b.actions[c].arguments))
  {
    RunsKeepTheInvariant(settings, events);
    var b := Replay(settings, events);
    forall a, c | a in AutonomousIds(b.actions, i) && c in AutonomousIds(b.actions, i) && a != c
      ensures !Repeats(b.actions[a], b.actions[c])
    {
      assert AutonomyBounded(settings, b);
    }
  }
}
