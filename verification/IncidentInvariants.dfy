/** What every step of the backend keeps, and what follows for all its runs. */
module IncidentInvariants {
  import opened JsonValues
  import opened Topology
  import opened RecoveryChecks
  import opened Records
  import opened Tools
  import opened Autonomy
  import opened Incidents
  import Policy = AutonomyPolicy

  // --- How rows may change ---

  predicate ApprovalMoves(from: Approval, to: Approval) {
    to == from || (from.Pending? && (to.Approved? || to.Rejected? || to.Expired?))
  }

  predicate ActionMoves(x: Action, y: Action) {
    && y.incident == x.incident && y.tool == x.tool && y.arguments == x.arguments
    && y.requiresApproval == x.requiresApproval && y.expires == x.expires && y.evidence == x.evidence
    && ApprovalMoves(x.approval, y.approval)
    && (y.approval == x.approval ==> y.executed == x.executed && y.claimedAt == x.claimedAt)
  }

  predicate IncidentMoves(x: Incident, y: Incident) {
    y.service == x.service && x.observations <= y.observations
  }

  /** Rows are never removed, observations are only added, an approval changes at most once, and
      what an action is never changes. */
  ghost predicate Evolves(b: Backend, c: Backend) {
    && (forall i :: i in b.incidents ==> i in c.incidents && IncidentMoves(b.incidents[i], c.incidents[i]))
    && (forall a :: a in b.actions ==> a in c.actions && ActionMoves(b.actions[a], c.actions[a]))
  }

  lemma EvolvesTransitively(b: Backend, c: Backend, d: Backend)
    requires Evolves(b, c) && Evolves(c, d)
    ensures Evolves(b, d)
  {
  }

  // --- The invariant ---

  /** An action is a write; executed means decided in favour, by an operator before the approval
      expired, or by policy. */
  predicate Consistent(a: Action) {
    && IsWrite(a.tool)
    && (a.executed <==> a.approval.Approved? || a.approval.AutoAuthorized?)
    && (a.approval.AutoAuthorized? <==> !a.requiresApproval)
    && (a.approval.Approved? ==> a.claimedAt < a.expires)
  }

  ghost predicate ActionsConsistent(b: Backend) {
    forall a :: a in b.actions ==> b.actions[a].incident in b.incidents && Consistent(b.actions[a])
  }

  /** Waiting means that something can be approved; resolved means that nothing can. */
  ghost predicate StatusesConsistent(b: Backend) {
    forall i :: i in b.incidents ==>
      && (b.incidents[i].status.WaitingForApproval? ==> PendingIds(b.actions, i) != {})
      && (b.incidents[i].status.Resolved? ==> b.incidents[i].resolvedAt.Some? && PendingIds(b.actions, i) == {})
  }

  /** The reply of one attempt at the result's check decided it. */
  predicate ShownBy(o: Observation, r: CheckResult) {
    && o.id == r.observation && o.phase.Verification? && o.tool == r.check.tool && o.arguments == r.check.arguments
    && (r.passed <==> o.ok && Matches(o.result, r.check.expected))
  }

  /** The observation that decided the result was recorded when the incident had at least `since`. */
  predicate ShownSince(inc: Incident, r: CheckResult, since: nat) {
    since <= r.at < |inc.observations| && ShownBy(inc.observations[r.at], r)
  }

  /** Each result of a verification is decided by an observation recorded since it began, and no two
      by the same one. */
  predicate Witnessed(inc: Incident, results: seq<CheckResult>, since: nat) {
    && since <= |inc.observations|
    && (forall k :: 0 <= k < |results| ==> ShownSince(inc, results[k], since))
    && (forall j, k :: 0 <= j < k < |results| ==> results[j].at < results[k].at)
  }

  function ResultChecks(results: seq<CheckResult>): (r: seq<Check>)
    ensures |r| == |results| && forall k :: 0 <= k < |r| ==> r[k] == results[k].check
  {
    seq(|results|, k requires 0 <= k < |results| => results[k].check)
  }

  /** The stored verification is not empty, all of its results passed, each shown by an observation of
      its own recorded since it began, and every check configured for a reachable service is among its
      checks. */
  ghost predicate Recovered(t: Services, inc: Incident) {
    var results := inc.verification.results;
    && AllPassed(results) && Witnessed(inc, results, inc.verification.since)
    && (forall c :: ReachableCheck(t, inc.service, c) ==> CheckText(c) in Texts(ResultChecks(results)))
  }

  ghost predicate RecoveriesBacked(t: Services, b: Backend) {
    forall i :: i in b.incidents && b.incidents[i].status.Resolved? ==> Recovered(t, b.incidents[i])
  }

  /** The evidence an autonomous action was authorized on. */
  ghost predicate Grounds(settings: Settings, inc: Incident, a: Action, evidence: seq<Observation>) {
    && Ids(evidence) == a.evidence && EvidenceAllows(settings, a.tool, a.arguments, evidence)
    && Policy.InOrder(evidence, inc.observations)
    && forall o :: o in evidence ==> o in inc.observations && o.at >= a.claimedAt - FRESH_SECONDS
  }

  /** Where the gateway lists the targets of the tool that need no operator, this is one of them. */
  predicate LeftToTheAgent(settings: Settings, tool: string, target: string) {
    && tool in settings.registry
    && (settings.registry[tool].autonomousTargets.Some? ==> target in settings.registry[tool].autonomousTargets.value)
  }

  /** Autonomy was on, the registry offers the write on this target without an operator, and the
      evidence stored with it allows it. */
  ghost predicate Justified(settings: Settings, inc: Incident, a: Action) {
    && settings.writes && settings.autonomy && IsWrite(a.tool) && !IsStop(a.tool)
    && Offers(settings, a.tool, a.arguments, LowRiskWrite)
    && GetOrNull(a.arguments, TargetKey(a.tool)).JStr?
    && LeftToTheAgent(settings, a.tool, GetOrNull(a.arguments, TargetKey(a.tool)).s)
    && GetOrNull(a.arguments, TargetKey(a.tool)).s in ProfileTargets(settings.topology, inc.service)
    && exists evidence :: Grounds(settings, inc, a, evidence)
  }

  function AutonomousIds(actions: map<string, Action>, i: string): set<string> {
    set a | a in actions && actions[a].incident == i && !actions[a].requiresApproval
  }

  /** Two autonomous actions of one incident on one target. */
  predicate Repeats(x: Action, y: Action) {
    && x.incident == y.incident && !x.requiresApproval && !y.requiresApproval
    && TargetKey(x.tool) == TargetKey(y.tool) && SameTarget(x, y.tool, y.arguments)
  }

  ghost predicate AllJustified(settings: Settings, b: Backend) {
    forall a :: a in b.actions && !b.actions[a].requiresApproval && b.actions[a].incident in b.incidents ==>
        Justified(settings, b.incidents[b.actions[a].incident], b.actions[a])
  }

  ghost predicate AutonomyBounded(settings: Settings, b: Backend) {
    && AllJustified(settings, b)
    && (forall a, c :: a in b.actions && c in b.actions && a != c ==> !Repeats(b.actions[a], b.actions[c]))
    && (forall i :: |AutonomousIds(b.actions, i)| <= settings.maxActions)
  }

  ghost predicate TaskSound(settings: Settings, b: Backend, t: Task) {
    match t
    case Dispatch(a, _, _) => a in b.actions && b.actions[a].executed
    case Verify(purpose, i, checks, results, _, since) =>
      && i in b.incidents && |results| <= |checks| && Witnessed(b.incidents[i], results, since)
      && (forall k :: 0 <= k < |results| ==> results[k].check == checks[k])
      && match purpose
         case ExactTarget(a, _) => a in b.actions && b.actions[a].incident == i
         case Recovery(action) =>
           && (action.Some? ==> action.value in b.actions && b.actions[action.value].incident == i)
           && VerificationChecks(settings.topology, b.incidents[i].service, ActionTarget(b, action)) == Ok(checks)
  }

  ghost predicate TasksSound(settings: Settings, b: Backend) {
    forall n :: n in b.tasks ==> TaskSound(settings, b, b.tasks[n])
  }

  ghost predicate Invariant(settings: Settings, b: Backend) {
    && ActionsConsistent(b) && StatusesConsistent(b) && RecoveriesBacked(settings.topology, b)
    && AutonomyBounded(settings, b) && TasksSound(settings, b)
  }

  // --- What survives when rows move ---

  lemma WitnessedSurvives(x: Incident, y: Incident, results: seq<CheckResult>, since: nat)
    requires Witnessed(x, results, since) && IncidentMoves(x, y)
    ensures Witnessed(y, results, since)
  {
  }

  lemma RecoveredSurvives(t: Services, x: Incident, y: Incident)
    requires Recovered(t, x) && IncidentMoves(x, y) && y.verification == x.verification
    ensures Recovered(t, y)
  {
    WitnessedSurvives(x, y, x.verification.results, x.verification.since);
  }

  lemma InOrderSurvives(evidence: seq<Observation>, x: Incident, y: Incident)
    requires Policy.InOrder(evidence, x.observations) && IncidentMoves(x, y)
    ensures Policy.InOrder(evidence, y.observations)
  {
    var picks :| Policy.Picked(evidence, x.observations, picks);
    assert Policy.Picked(evidence, y.observations, picks);
  }

  lemma JustifiedSurvives(settings: Settings, x: Incident, y: Incident, a: Action, c: Action)
    requires Justified(settings, x, a) && IncidentMoves(x, y) && ActionMoves(a, c) && a.approval == c.approval
    ensures Justified(settings, y, c)
  {
    var evidence :| Grounds(settings, x, a, evidence);
    InOrderSurvives(evidence, x, y);
    assert Grounds(settings, y, c, evidence);
  }

  lemma TaskSurvives(settings: Settings, b: Backend, c: Backend, t: Task)
    requires TaskSound(settings, b, t) && Evolves(b, c) && ActionsConsistent(b) && ActionsConsistent(c)
    ensures TaskSound(settings, c, t)
  {
    if t.Verify? {
      WitnessedSurvives(b.incidents[t.incident], c.incidents[t.incident], t.results, t.since);
    } else {
      assert ActionMoves(b.actions[t.action], c.actions[t.action]);
    }
  }

  /** The resolved incidents of `c` were resolved by the same verification before, or are newly recovered. */
  ghost predicate RecoveriesCarried(t: Services, b: Backend, c: Backend) {
    forall i :: i in c.incidents && c.incidents[i].status.Resolved? ==>
      || Recovered(t, c.incidents[i])
      || (i in b.incidents && b.incidents[i].status.Resolved?
         && c.incidents[i].verification == b.incidents[i].verification)
  }

  lemma RecoveriesKept(t: Services, b: Backend, c: Backend)
    requires RecoveriesBacked(t, b) && Evolves(b, c) && RecoveriesCarried(t, b, c)
    ensures RecoveriesBacked(t, c)
  {
    forall i | i in c.incidents && c.incidents[i].status.Resolved? ensures Recovered(t, c.incidents[i]) {
      if !Recovered(t, c.incidents[i]) { RecoveredSurvives(t, b.incidents[i], c.incidents[i]); }
    }
  }

  /** No new autonomous action. */
  ghost predicate AutonomyCarried(b: Backend, c: Backend) {
    forall a :: a in c.actions && !c.actions[a].requiresApproval ==> a in b.actions
  }

  lemma RepeatsMoves(x: Action, y: Action, x': Action, y': Action)
    requires ActionMoves(x, x') && ActionMoves(y, y')
    ensures Repeats(x', y') == Repeats(x, y)
  {
  }

  lemma JustifiedKept(settings: Settings, b: Backend, c: Backend)
    requires AllJustified(settings, b) && ActionsConsistent(b) && ActionsConsistent(c) && Evolves(b, c)
      && AutonomyCarried(b, c)
    ensures AllJustified(settings, c)
  {
    forall a | a in c.actions && !c.actions[a].requiresApproval && c.actions[a].incident in c.incidents
      ensures Justified(settings, c.incidents[c.actions[a].incident], c.actions[a])
    {
      var i := b.actions[a].incident;
      assert ActionMoves(b.actions[a], c.actions[a]);
      JustifiedSurvives(settings, b.incidents[i], c.incidents[i], b.actions[a], c.actions[a]);
    }
  }

  lemma AutonomyKept(settings: Settings, b: Backend, c: Backend)
    requires AutonomyBounded(settings, b) && ActionsConsistent(b) && ActionsConsistent(c) && Evolves(b, c)
      && AutonomyCarried(b, c)
    ensures AutonomyBounded(settings, c)
  {
    JustifiedKept(settings, b, c);
    forall a, d | a in c.actions && d in c.actions && a != d ensures !Repeats(c.actions[a], c.actions[d]) {
      if !c.actions[a].requiresApproval && !c.actions[d].requiresApproval {
        RepeatsMoves(b.actions[a], b.actions[d], c.actions[a], c.actions[d]);
      }
    }
    forall i ensures |AutonomousIds(c.actions, i)| <= settings.maxActions {
      assert forall a :: a in AutonomousIds(c.actions, i) ==> ActionMoves(b.actions[a], c.actions[a]);
      assert AutonomousIds(c.actions, i) <= AutonomousIds(b.actions, i);
      SubsetSize(AutonomousIds(c.actions, i), AutonomousIds(b.actions, i));
    }
  }

  lemma SubsetSize(x: set<string>, y: set<string>)
    requires x <= y
    ensures |x| <= |y|
  {
    if x != {} {
      var e :| e in x;
      SubsetSize(x - {e}, y - {e});
    }
  }

  ghost predicate TasksCarried(settings: Settings, b: Backend, c: Backend) {
    forall n :: n in c.tasks ==> (n in b.tasks && c.tasks[n] == b.tasks[n]) || TaskSound(settings, c, c.tasks[n])
  }

  lemma TasksKept(settings: Settings, b: Backend, c: Backend)
    requires TasksSound(settings, b) && ActionsConsistent(b) && ActionsConsistent(c) && Evolves(b, c)
      && TasksCarried(settings, b, c)
    ensures TasksSound(settings, c)
  {
    forall n | n in c.tasks ensures TaskSound(settings, c, c.tasks[n]) {
      if n in b.tasks && c.tasks[n] == b.tasks[n] { TaskSurvives(settings, b, c, b.tasks[n]); }
    }
  }

  /** What is left to show of a step that authorizes no autonomous action. */
  lemma Keeps(settings: Settings, b: Backend, c: Backend)
    requires Invariant(settings, b) && Evolves(b, c) && ActionsConsistent(c) && StatusesConsistent(c)
    requires RecoveriesCarried(settings.topology, b, c) && AutonomyCarried(b, c) && TasksCarried(settings, b, c)
    ensures Invariant(settings, c)
  {
    RecoveriesKept(settings.topology, b, c);
    AutonomyKept(settings, b, c);
    TasksKept(settings, b, c);
  }

  // --- Single steps ---

  lemma PendingElsewhere(actions: map<string, Action>, a: string, y: Action, j: string)
    requires j != y.incident && (a in actions ==> actions[a].incident == y.incident)
    ensures PendingIds(actions[a := y], j) == PendingIds(actions, j)
  {
  }

  lemma PendingHere(actions: map<string, Action>, a: string, y: Action)
    ensures PendingIds(actions[a := y], y.incident)
      == (PendingIds(actions, y.incident) - {a}) + if y.approval.Pending? then {a} else {}
  {
  }

  /** The incident moves without becoming resolved, and waits only if something is pending. */
  ghost predicate StatusFits(b: Backend, i: string, inc: Incident, pending: bool)
    requires i in b.incidents
  {
    && IncidentMoves(b.incidents[i], inc)
    && inc.verification == b.incidents[i].verification && inc.resolvedAt == b.incidents[i].resolvedAt
    && (inc.status.Resolved? ==> b.incidents[i].status.Resolved?)
    && (inc.status.WaitingForApproval? ==> pending)
  }

  lemma OneActionStatuses(b: Backend, i: string, inc: Incident, a: string, y: Action, tasks: map<nat, Task>)
    requires StatusesConsistent(b) && i in b.incidents && y.incident == i
      && (a in b.actions ==> b.actions[a].incident == i)
    requires inc.status.WaitingForApproval? ==> PendingIds(b.actions, i) - {a} != {} || y.approval.Pending?
    requires inc.status.Resolved? ==> inc.resolvedAt.Some? && PendingIds(b.actions, i) == {} && !y.approval.Pending?
    ensures StatusesConsistent(Backend(b.incidents[i := inc], b.actions[a := y], tasks))
  {
    PendingHere(b.actions, a, y);
    forall j | j in b.incidents && j != i ensures PendingIds(b.actions[a := y], j) == PendingIds(b.actions, j) {
      PendingElsewhere(b.actions, a, y, j);
    }
  }

  /** One action and its incident move, and tasks come or go. */
  lemma ActionStep(settings: Settings, b: Backend, i: string, inc: Incident, a: string, y: Action,
                   tasks: map<nat, Task>)
    requires Invariant(settings, b) && a in b.actions && b.actions[a].incident == i && i in b.incidents
    requires ActionMoves(b.actions[a], y) && Consistent(y)
    requires StatusFits(b, i, inc, PendingIds(b.actions, i) - {a} != {} || y.approval.Pending?)
    requires TasksCarried(settings, b, Backend(b.incidents[i := inc], b.actions[a := y], tasks))
    ensures var c := Backend(b.incidents[i := inc], b.actions[a := y], tasks); Invariant(settings, c) && Evolves(b, c)
  {
    var c := Backend(b.incidents[i := inc], b.actions[a := y], tasks);
    MovedRows(b, i, inc, a, y, tasks);
    assert b.incidents[i].status.Resolved? ==> PendingIds(b.actions, i) == {} && a !in PendingIds(b.actions, i);
    OneActionStatuses(b, i, inc, a, y, tasks);
    assert RecoveriesCarried(settings.topology, b, c);
    Keeps(settings, b, c);
  }

  lemma MovedRows(b: Backend, i: string, inc: Incident, a: string, y: Action, tasks: map<nat, Task>)
    requires ActionsConsistent(b) && a in b.actions && i in b.incidents && IncidentMoves(b.incidents[i], inc)
    requires ActionMoves(b.actions[a], y) && Consistent(y)
    ensures var c := Backend(b.incidents[i := inc], b.actions[a := y], tasks);
      Evolves(b, c) && ActionsConsistent(c) && AutonomyCarried(b, c)
  {
  }

  /** Only one incident and the tasks move. */
  lemma QuietStep(settings: Settings, b: Backend, i: string, inc: Incident, tasks: map<nat, Task>)
    requires Invariant(settings, b) && i in b.incidents
      && StatusFits(b, i, inc, b.incidents[i].status.WaitingForApproval?)
    requires TasksCarried(settings, b, Backend(b.incidents[i := inc], b.actions, tasks))
    ensures var c := Backend(b.incidents[i := inc], b.actions, tasks); Invariant(settings, c) && Evolves(b, c)
  {
    var c := Backend(b.incidents[i := inc], b.actions, tasks);
    QuietRows(settings, b, i, inc, tasks);
    Keeps(settings, b, c);
  }

  lemma QuietRows(settings: Settings, b: Backend, i: string, inc: Incident, tasks: map<nat, Task>)
    requires ActionsConsistent(b) && StatusesConsistent(b) && i in b.incidents
    requires StatusFits(b, i, inc, b.incidents[i].status.WaitingForApproval?)
    ensures var c := Backend(b.incidents[i := inc], b.actions, tasks);
      && Evolves(b, c) && ActionsConsistent(c) && StatusesConsistent(c)
      && AutonomyCarried(b, c) && RecoveriesCarried(settings.topology, b, c)
  {
  }

  /** Only the tasks move. */
  lemma TaskStep(settings: Settings, b: Backend, tasks: map<nat, Task>)
    requires Invariant(settings, b) && TasksCarried(settings, b, b.(tasks := tasks))
    ensures Invariant(settings, b.(tasks := tasks)) && Evolves(b, b.(tasks := tasks))
  {
    Keeps(settings, b, b.(tasks := tasks));
  }

  /** What each step has to show. */
  ghost predicate Step(settings: Settings, b: Backend, c: Backend) {
    Invariant(settings, c) && Evolves(b, c)
  }

  lemma CreateStep(settings: Settings, b: Backend, i: string, service: string)
    requires Invariant(settings, b)
    ensures Step(settings, b, Create(b, i, service))
  {
    if i !in b.incidents {
      CreatedRows(settings, b, i, Incident(service, Open, None, [], [], Checked([], 0)));
      Keeps(settings, b, Create(b, i, service));
    }
  }

  /** A new open incident changes nothing that was there. */
  lemma CreatedRows(settings: Settings, b: Backend, i: string, inc: Incident)
    requires ActionsConsistent(b) && StatusesConsistent(b) && i !in b.incidents && inc.status.Open?
    ensures var c := WithIncident(b, i, inc);
      && Evolves(b, c) && ActionsConsistent(c) && StatusesConsistent(c)
      && RecoveriesCarried(settings.topology, b, c) && AutonomyCarried(b, c) && TasksCarried(settings, b, c)
  {
  }

  /** The agent's own steps on one incident. */
  lemma AgentStep(settings: Settings, b: Backend, i: string, inc: Incident)
    requires Invariant(settings, b) && i in b.incidents
      && StatusFits(b, i, inc, b.incidents[i].status.WaitingForApproval?)
    ensures Step(settings, b, WithIncident(b, i, inc))
  {
    QuietStep(settings, b, i, inc, b.tasks);
  }

  lemma StatusStep(settings: Settings, b: Backend, i: string, status: Status)
    requires Invariant(settings, b) && i in b.incidents && !status.WaitingForApproval? && !status.Resolved?
    ensures Step(settings, b, WithIncident(b, i, b.incidents[i].(status := status)))
  {
    AgentStep(settings, b, i, b.incidents[i].(status := status));
  }

  lemma RecordStep(settings: Settings, b: Backend, i: string, o: Observation)
    requires Invariant(settings, b)
    ensures Step(settings, b, Record(b, i, o))
  {
    if i in b.incidents {
      AgentStep(settings, b, i, b.incidents[i].(observations := b.incidents[i].observations + [o]));
    }
  }

  lemma DiagnoseStep(settings: Settings, b: Backend, i: string, ids: seq<string>)
    requires Invariant(settings, b)
    ensures Step(settings, b, Diagnose(b, i, ids))
  {
    if i in b.incidents { AgentStep(settings, b, i, b.incidents[i].(status := Open, cited := ids)); }
  }

  /** A pending action is added and its incident waits. */
  lemma ProposalStep(settings: Settings, b: Backend, i: string, a: string, y: Action)
    requires Invariant(settings, b) && i in b.incidents && a !in b.actions
    requires y.incident == i && y.approval.Pending? && Consistent(y)
    ensures var c := WithIncident(b, i, b.incidents[i].(status := WaitingForApproval)).(actions := b.actions[a := y]);
      Step(settings, b, c)
  {
    var c := WithIncident(b, i, b.incidents[i].(status := WaitingForApproval)).(actions := b.actions[a := y]);
    AddedRows(b, c, a);
    OneActionStatuses(b, i, c.incidents[i], a, y, b.tasks);
    ProposalCarries(settings, b, i, a, y);
    Keeps(settings, b, c);
  }

  lemma ProposalCarries(settings: Settings, b: Backend, i: string, a: string, y: Action)
    requires i in b.incidents && y.approval.Pending? && Consistent(y)
    ensures var c := WithIncident(b, i, b.incidents[i].(status := WaitingForApproval)).(actions := b.actions[a := y]);
      RecoveriesCarried(settings.topology, b, c) && AutonomyCarried(b, c) && TasksCarried(settings, b, c)
  {
  }

  lemma ProposeStep(settings: Settings, b: Backend, i: string, a: string, tool: string, arguments: Json, now: int)
    requires Invariant(settings, b)
    ensures Step(settings, b, Propose(settings, b, i, a, tool, arguments, now))
  {
    var c := Propose(settings, b, i, a, tool, arguments, now);
    if c != b { ProposalStep(settings, b, i, a, c.actions[a]); }
  }

  /** A rejection decides the action, opens its incident at most, and nothing else. */
  lemma RejectShape(b: Backend, a: string)
    requires ActionsConsistent(b) && a in b.actions && b.actions[a].approval.Pending?
    ensures var c := Reject(b, a);
      && b.actions[a].incident in b.incidents && a in c.actions && b.actions[a].incident in c.incidents
      && var i := b.actions[a].incident;
         var inc, y := c.incidents[i], c.actions[a];
         && c == Backend(b.incidents[i := inc], b.actions[a := y], b.tasks) && ActionMoves(b.actions[a], y)
         && Consistent(y)
         && (b.incidents[i].status.WaitingForApproval? && PendingIds(b.actions, i) - {a} == {} ==> inc.status.Open?)
         && (inc == b.incidents[i] || inc == b.incidents[i].(status := Open))
  {
  }

  lemma RejectStep(settings: Settings, b: Backend, a: string)
    requires Invariant(settings, b)
    ensures Step(settings, b, Reject(b, a))
  {
    if a in b.actions && b.actions[a].approval.Pending? {
      var i := b.actions[a].incident;
      var c := Reject(b, a);
      RejectShape(b, a);
      assert a in PendingIds(b.actions, i);
      ActionStep(settings, b, i, c.incidents[i], a, c.actions[a], b.tasks);
    }
  }

  /** An approval expires the action or claims it, and nothing else. */
  lemma ApproveShape(settings: Settings, b: Backend, a: string, n: nat, now: int)
    requires ActionsConsistent(b) && Approve(settings, b, a, n, now) != b
    ensures var c := Approve(settings, b, a, n, now);
      && a in b.actions && b.actions[a].approval.Pending? && b.actions[a].requiresApproval
      && b.actions[a].incident in b.incidents
      && var i := b.actions[a].incident;
         var inc, y := c.incidents[i], c.actions[a];
         && c == Backend(b.incidents[i := inc], b.actions[a := y], c.tasks) && ActionMoves(b.actions[a], y)
         && Consistent(y)
         && StatusFits(b, i, inc, PendingIds(b.actions, i) - {a} != {})
         && (c.tasks == b.tasks || (n !in b.tasks && c.tasks == b.tasks[n := Dispatch(a, false, [])] && y.executed))
  {
  }

  lemma ApproveStep(settings: Settings, b: Backend, a: string, n: nat, now: int)
    requires Invariant(settings, b)
    ensures Step(settings, b, Approve(settings, b, a, n, now))
  {
    var c := Approve(settings, b, a, n, now);
    if c != b {
      ApproveShape(settings, b, a, n, now);
      var i := b.actions[a].incident;
      ActionStep(settings, b, i, c.incidents[i], a, c.actions[a], c.tasks);
    }
  }

  lemma SettleStep(settings: Settings, b: Backend, n: nat, ok: bool)
    requires Invariant(settings, b)
    ensures Step(settings, b, Settle(b, n, ok))
  {
    var c := Settle(b, n, ok);
    if c != b {
      if ok {
        TaskStep(settings, b, c.tasks);
      } else {
        var a := b.tasks[n].action;
        var i := b.actions[a].incident;
        assert c == Backend(b.incidents[i := c.incidents[i]], b.actions[a := c.actions[a]], c.tasks);
        ActionStep(settings, b, i, c.incidents[i], a, c.actions[a], c.tasks);
      }
    }
  }

  // --- Verification steps ---

  lemma BlockedShape(settings: Settings, b: Backend, i: string, action: Option<string>, n: nat)
    requires ActionsConsistent(b) && BeginVerification(settings, b, i, action, n) != b
    requires action.Some? && BeginVerification(settings, b, i, action, n).tasks == b.tasks
    ensures var c := BeginVerification(settings, b, i, action, n);
      && i in b.incidents && i in c.incidents && action.value in b.actions && action.value in c.actions
      && b.actions[action.value].incident == i
      && c == Backend(b.incidents[i := c.incidents[i]], b.actions[action.value := c.actions[action.value]], b.tasks)
      && ActionMoves(b.actions[action.value], c.actions[action.value]) && Consistent(c.actions[action.value])
      && StatusFits(b, i, c.incidents[i], false)
  {
    var c := BeginVerification(settings, b, i, action, n);
    assert n in b.tasks || n !in c.tasks;
  }

  lemma BegunShape(settings: Settings, b: Backend, i: string, action: Option<string>, n: nat)
    requires ActionsConsistent(b) && BeginVerification(settings, b, i, action, n) != b
    requires action.None? || BeginVerification(settings, b, i, action, n).tasks != b.tasks
    ensures var c := BeginVerification(settings, b, i, action, n);
      && i in b.incidents && i in c.incidents
      && c == Backend(b.incidents[i := c.incidents[i]], b.actions, c.tasks)
      && (c.tasks == b.tasks || (n in c.tasks && c.tasks == b.tasks[n := c.tasks[n]]
         && TaskSound(settings, c, c.tasks[n])))
      && StatusFits(b, i, c.incidents[i], false)
  {
  }

  lemma BeginVerificationStep(settings: Settings, b: Backend, i: string, action: Option<string>, n: nat)
    requires Invariant(settings, b)
    ensures Step(settings, b, BeginVerification(settings, b, i, action, n))
  {
    var c := BeginVerification(settings, b, i, action, n);
    if c != b {
      if c.tasks == b.tasks && action.Some? {
        BlockedStep(settings, b, i, action, n);
      } else {
        BegunStep(settings, b, i, action, n);
      }
    }
  }

  lemma BegunStep(settings: Settings, b: Backend, i: string, action: Option<string>, n: nat)
    requires Invariant(settings, b) && BeginVerification(settings, b, i, action, n) != b
    requires action.None? || BeginVerification(settings, b, i, action, n).tasks != b.tasks
    ensures Step(settings, b, BeginVerification(settings, b, i, action, n))
  {
    var c := BeginVerification(settings, b, i, action, n);
    BegunShape(settings, b, i, action, n);
    QuietStep(settings, b, i, c.incidents[i], c.tasks);
  }

  lemma BlockedStep(settings: Settings, b: Backend, i: string, action: Option<string>, n: nat)
    requires Invariant(settings, b) && BeginVerification(settings, b, i, action, n) != b
    requires action.Some? && BeginVerification(settings, b, i, action, n).tasks == b.tasks
    ensures Step(settings, b, BeginVerification(settings, b, i, action, n))
  {
    var c := BeginVerification(settings, b, i, action, n);
    BlockedShape(settings, b, i, action, n);
    ActionStep(settings, b, i, c.incidents[i], action.value, c.actions[action.value], b.tasks);
  }

  /** An attempt records its reply, and settles the next check with it or counts one more try. */
  lemma AttemptShape(b: Backend, n: nat, ok: bool, result: Json, o: string, now: int)
    requires Attempt(b, n, ok, result, o, now) != b
    ensures n in b.tasks && b.tasks[n].Verify? && |b.tasks[n].results| < |b.tasks[n].checks|
    ensures var c, t := Attempt(b, n, ok, result, o, now), b.tasks[n];
      && t.incident in b.incidents && t.incident in c.incidents && n in c.tasks
      && var check, before, after := t.checks[|t.results|], b.incidents[t.incident], c.incidents[t.incident];
         && c == Backend(b.incidents[t.incident := after], b.actions, b.tasks[n := c.tasks[n]])
         && after == before.(observations := before.observations
              + [Observation(o, check.tool, check.arguments, ok, result, Verification, now)])
         && (|| c.tasks[n] == t.(attempts := t.attempts + 1)
             || c.tasks[n] == t.(results := t.results + [CheckResult(check, ok && Matches(result, check.expected), o,
                                                                    |before.observations|)], attempts := 0))
  {
  }

  /** A verification goes on soundly with results that its incident's observations show. */
  lemma GoesOn(settings: Settings, b: Backend, c: Backend, t: Task, results: seq<CheckResult>, attempts: nat)
    requires t.Verify? && TaskSound(settings, b, t) && c.actions == b.actions && t.incident in c.incidents
    requires IncidentMoves(b.incidents[t.incident], c.incidents[t.incident]) && |results| <= |t.checks|
    requires Witnessed(c.incidents[t.incident], results, t.since)
    requires forall k :: 0 <= k < |results| ==> results[k].check == t.checks[k]
    ensures TaskSound(settings, c, t.(results := results, attempts := attempts))
  {
  }

  lemma AttemptSound(settings: Settings, b: Backend, n: nat, ok: bool, result: Json, o: string, now: int)
    requires TasksSound(settings, b) && Attempt(b, n, ok, result, o, now) != b
    ensures var c := Attempt(b, n, ok, result, o, now); n in c.tasks && TaskSound(settings, c, c.tasks[n])
  {
    AttemptShape(b, n, ok, result, o, now);
    var c, t := Attempt(b, n, ok, result, o, now), b.tasks[n];
    var before, after, check := b.incidents[t.incident], c.incidents[t.incident], t.checks[|t.results|];
    var r := CheckResult(check, ok && Matches(result, check.expected), o, |before.observations|);
    assert TaskSound(settings, b, t);
    WitnessedSurvives(before, after, t.results, t.since);
    if c.tasks[n] == t.(attempts := t.attempts + 1) {
      GoesOn(settings, b, c, t, t.results, t.attempts + 1);
    } else {
      OneMoreWitnessed(after, t.results, r, t.since);
      GoesOn(settings, b, c, t, t.results + [r], 0);
    }
  }

  /** A result decided by the latest observation may be added. */
  lemma OneMoreWitnessed(inc: Incident, results: seq<CheckResult>, r: CheckResult, since: nat)
    requires Witnessed(inc, results, since) && ShownSince(inc, r, since)
    requires forall k :: 0 <= k < |results| ==> results[k].at < r.at
    ensures Witnessed(inc, results + [r], since)
  {
  }

  lemma AttemptStep(settings: Settings, b: Backend, n: nat, ok: bool, result: Json, o: string, now: int)
    requires Invariant(settings, b)
    ensures Step(settings, b, Attempt(b, n, ok, result, o, now))
  {
    var c := Attempt(b, n, ok, result, o, now);
    if c != b {
      AttemptShape(b, n, ok, result, o, now);
      AttemptSound(settings, b, n, ok, result, o, now);
      QuietStep(settings, b, b.tasks[n].incident, c.incidents[b.tasks[n].incident], c.tasks);
    }
  }

  lemma ChecksCover(t: Services, service: string, action: Option<Target>, task: Task)
    requires action.Some? ==> !IsStop(action.value.tool)
    requires task.Verify? && VerificationChecks(t, service, action) == Ok(task.checks)
      && |task.results| == |task.checks|
    requires forall k :: 0 <= k < |task.results| ==> task.results[k].check == task.checks[k]
    ensures forall c :: ReachableCheck(t, service, c) ==> CheckText(c) in Texts(ResultChecks(task.results))
  {
    RecoveryChecksAreReachableChecks(t, service, action);
    assert ResultChecks(task.results) == task.checks;
  }

  /** The results of a finished recovery are what a resolved incident has to store. */
  lemma FinishedRecovers(settings: Settings, b: Backend, n: nat, inc: Incident)
    requires TasksSound(settings, b) && Finished(b, n) && b.tasks[n].purpose.Recovery? && AllPassed(b.tasks[n].results)
    requires var a := b.tasks[n].purpose.action; a.Some? ==> a.value in b.actions && !IsStop(b.actions[a.value].tool)
    requires b.tasks[n].incident in b.incidents && IncidentMoves(b.incidents[b.tasks[n].incident], inc)
    requires inc.verification == Checked(b.tasks[n].results, b.tasks[n].since)
    ensures Recovered(settings.topology, inc)
  {
    var t := b.tasks[n];
    assert TaskSound(settings, b, t);
    ChecksCover(settings.topology, inc.service, ActionTarget(b, t.purpose.action), t);
    WitnessedSurvives(b.incidents[t.incident], inc, t.results, t.since);
  }

  lemma ExpireMoves(actions: map<string, Action>, i: string)
    ensures ExpirePending(actions, i).Keys == actions.Keys && PendingIds(ExpirePending(actions, i), i) == {}
    ensures forall a :: a in actions ==> ActionMoves(actions[a], ExpirePending(actions, i)[a])
    ensures forall j :: j != i ==> PendingIds(ExpirePending(actions, i), j) == PendingIds(actions, j)
    ensures forall a :: a in actions && Consistent(actions[a]) ==> Consistent(ExpirePending(actions, i)[a])
  {
  }

  /** Several actions of one incident move, and none of them becomes pending. */
  lemma ActionsStep(settings: Settings, b: Backend, i: string, inc: Incident, actions: map<string, Action>,
                    tasks: map<nat, Task>)
    requires Invariant(settings, b) && i in b.incidents && IncidentMoves(b.incidents[i], inc)
    requires actions.Keys == b.actions.Keys
    requires forall a :: a in actions ==> ActionMoves(b.actions[a], actions[a]) && Consistent(actions[a])
    requires forall j :: j != i ==> PendingIds(actions, j) == PendingIds(b.actions, j)
    requires inc.status.WaitingForApproval? ==> PendingIds(actions, i) != {}
    requires inc.status.Resolved?
      ==> inc.resolvedAt.Some? && PendingIds(actions, i) == {} && Recovered(settings.topology, inc)
    requires TasksCarried(settings, b, Backend(b.incidents[i := inc], actions, tasks))
    ensures Step(settings, b, Backend(b.incidents[i := inc], actions, tasks))
  {
    var c := Backend(b.incidents[i := inc], actions, tasks);
    assert Evolves(b, c) && ActionsConsistent(c) && StatusesConsistent(c);
    assert RecoveriesCarried(settings.topology, b, c) && AutonomyCarried(b, c);
    Keeps(settings, b, c);
  }

  lemma JudgeMoves(actions: map<string, Action>, a: Option<string>, verdict: Verdict)
    requires a.Some? ==> a.value in actions
    ensures var judged := if a.Some? then actions[a.value := actions[a.value].(verdict := verdict)] else actions;
      && judged.Keys == actions.Keys && (forall i :: PendingIds(judged, i) == PendingIds(actions, i))
      && (forall x :: x in actions ==> ActionMoves(actions[x], judged[x]))
      && (forall x :: x in actions && Consistent(actions[x]) ==> Consistent(judged[x]))
  {
  }

  function Judged(b: Backend, t: Task): map<string, Action>
    requires t.Verify? && t.purpose.Recovery?
  {
    var a := t.purpose.action;
    if a.Some? && a.value in b.actions
    then b.actions[a.value := b.actions[a.value].(verdict := if AllPassed(t.results) then Passed else Failed)]
      else b.actions
  }

  lemma FinishShape(b: Backend, n: nat, now: int)
    requires FinishVerification(b, n, now) != b
    ensures Finished(b, n) && b.tasks[n].purpose.Recovery?
    ensures var c, t := FinishVerification(b, n, now), b.tasks[n];
      && t.incident in b.incidents && t.incident in c.incidents
      && (t.purpose.action.Some? ==> t.purpose.action.value in b.actions)
      && var i, inc := t.incident, c.incidents[t.incident];
         && c == Backend(b.incidents[i := inc], c.actions, b.tasks - {n})
         && c.actions == (if AllPassed(t.results) then ExpirePending(Judged(b, t), i) else Judged(b, t))
         && IncidentMoves(b.incidents[i], inc) && inc.verification == Checked(t.results, t.since)
         && (inc.status.WaitingForApproval? ==> !AllPassed(t.results) && PendingIds(b.actions, i) != {})
         && (inc.status.Resolved? ==> AllPassed(t.results) && inc.resolvedAt.Some?)
         && (inc.status.Resolved? && t.purpose.action.Some? ==> !IsStop(b.actions[t.purpose.action.value].tool))
  {
  }

  lemma JudgedActions(b: Backend, t: Task, i: string)
    requires t.Verify? && t.purpose.Recovery? && ActionsConsistent(b)
    ensures var actions := if AllPassed(t.results) then ExpirePending(Judged(b, t), i) else Judged(b, t);
      && actions.Keys == b.actions.Keys
      && (forall a :: a in actions ==> ActionMoves(b.actions[a], actions[a]) && Consistent(actions[a]))
      && (forall j :: j != i ==> PendingIds(actions, j) == PendingIds(b.actions, j))
      && PendingIds(actions, i) == if AllPassed(t.results) then {} else PendingIds(b.actions, i)
  {
    var a := t.purpose.action;
    var judged := if a.Some? && a.value in b.actions then a else None;
    JudgeMoves(b.actions, judged, if AllPassed(t.results) then Passed else Failed);
    assert forall x :: x in b.actions ==> Consistent(b.actions[x]);
    ExpireMoves(Judged(b, t), i);
  }

  lemma FinishVerificationStep(settings: Settings, b: Backend, n: nat, now: int)
    requires Invariant(settings, b)
    ensures Step(settings, b, FinishVerification(b, n, now))
  {
    var c := FinishVerification(b, n, now);
    if c != b {
      FinishShape(b, n, now);
      var t := b.tasks[n];
      JudgedActions(b, t, t.incident);
      if c.incidents[t.incident].status.Resolved? { FinishedRecovers(settings, b, n, c.incidents[t.incident]); }
      ActionsStep(settings, b, t.incident, c.incidents[t.incident], c.actions, c.tasks);
    }
  }

  // --- Autonomous steps ---

  /** A claim is an authorization, and adds its action and its dispatch. */
  lemma ClaimDecides(settings: Settings, b: Backend, i: string, a: string, tool: string, arguments: Json,
                     ids: seq<string>, n: nat, now: int) returns (evidence: seq<Observation>)
    requires ClaimAutonomous(settings, b, i, a, tool, arguments, ids, n, now) != b
    ensures var c := ClaimAutonomous(settings, b, i, a, tool, arguments, ids, n, now);
      && i in b.incidents && a !in b.actions && n !in b.tasks
      && (var used := if ids == [] then Ids(b.incidents[i].observations) else ids;
          Authorize(settings, i, b.incidents[i], b.actions, tool, arguments, used, now) == Some(evidence))
      && var y := Action(i, tool, arguments, false, now, AutoAuthorized, true, now, Ids(evidence), NotRun);
         c.incidents == b.incidents && c.actions == b.actions[a := y]
         && exists exact :: c.tasks == b.tasks[n := Dispatch(a, false, exact)]
  {
    var used := if ids == [] then Ids(b.incidents[i].observations) else ids;
    evidence := Authorize(settings, i, b.incidents[i], b.actions, tool, arguments, used, now).value;
  }

  lemma AuthorizedIsJustified(settings: Settings, i: string, inc: Incident, actions: map<string, Action>, tool: string,
                              arguments: Json, ids: seq<string>, now: int, evidence: seq<Observation>)
    requires Authorize(settings, i, inc, actions, tool, arguments, ids, now) == Some(evidence)
    ensures var y := Action(i, tool, arguments, false, now, AutoAuthorized, true, now, Ids(evidence), NotRun);
      Consistent(y) && Justified(settings, inc, y)
  {
    var y := Action(i, tool, arguments, false, now, AutoAuthorized, true, now, Ids(evidence), NotRun);
    var picks := Policy.SelectedPicks(inc.observations, ids, now - FRESH_SECONDS);
    assert Grounds(settings, inc, y, evidence);
    PermittedExactly(settings, tool, arguments, true);
  }

  lemma AuthorizedIsNew(settings: Settings, i: string, inc: Incident, actions: map<string, Action>, tool: string,
                        arguments: Json, ids: seq<string>, now: int, y: Action)
    requires Authorize(settings, i, inc, actions, tool, arguments, ids, now).Some?
    requires y.incident == i && y.tool == tool && y.arguments == arguments
    ensures |ActionIds(actions, i)| < settings.maxActions
    ensures forall x :: x in actions ==> !Repeats(actions[x], y)
  {
    forall x | x in actions ensures !Repeats(actions[x], y) {
      var earlier := actions[x];
      assert !(earlier.incident == i && SameTarget(earlier, tool, arguments) && !earlier.requiresApproval);
    }
  }

  lemma AddedAutonomy(settings: Settings, b: Backend, c: Backend, i: string, a: string)
    requires AutonomyBounded(settings, b) && i in b.incidents && a !in b.actions && a in c.actions
    requires c.incidents == b.incidents && c.actions == b.actions[a := c.actions[a]]
    requires c.actions[a].incident == i && Justified(settings, b.incidents[i], c.actions[a])
    requires |ActionIds(b.actions, i)| < settings.maxActions
    requires forall x :: x in b.actions ==> !Repeats(b.actions[x], c.actions[a])
    ensures AutonomyBounded(settings, c)
  {
    NoneRepeats(b.actions, a, c.actions[a]);
    AddedJustified(settings, b, c, i, a);
    forall j ensures |AutonomousIds(c.actions, j)| <= settings.maxActions {
      AddedCount(b.actions, a, c.actions[a], j);
    }
  }

  lemma AddedJustified(settings: Settings, b: Backend, c: Backend, i: string, a: string)
    requires AllJustified(settings, b)
    requires i in b.incidents && c.incidents == b.incidents && a in c.actions
      && c.actions == b.actions[a := c.actions[a]]
    requires c.actions[a].incident == i && Justified(settings, b.incidents[i], c.actions[a])
    ensures AllJustified(settings, c)
  {
    forall x | x in c.actions && !c.actions[x].requiresApproval && c.actions[x].incident in c.incidents
      ensures Justified(settings, c.incidents[c.actions[x].incident], c.actions[x])
    {
      if x != a { assert c.actions[x] == b.actions[x]; }
    }
  }

  lemma NoneRepeats(actions: map<string, Action>, a: string, y: Action)
    requires forall x, z :: x in actions && z in actions && x != z ==> !Repeats(actions[x], actions[z])
    requires forall x :: x in actions ==> !Repeats(actions[x], y)
    ensures var added := actions[a := y];
      forall x, z :: x in added && z in added && x != z ==> !Repeats(added[x], added[z])
  {
    var added := actions[a := y];
    forall x, z | x in added && z in added && x != z ensures !Repeats(added[x], added[z]) {
      RepeatsSymmetric(added[x], added[z]);
    }
  }

  lemma AddedCount(actions: map<string, Action>, a: string, y: Action, j: string)
    requires a !in actions
    ensures |AutonomousIds(actions[a := y], j)| <= if y.incident == j then |ActionIds(actions, j)| + 1
      else |AutonomousIds(actions, j)|
  {
    if y.incident == j {
      SubsetSize(AutonomousIds(actions[a := y], j), ActionIds(actions, j) + {a});
    } else {
      assert AutonomousIds(actions[a := y], j) == AutonomousIds(actions, j);
    }
  }

  lemma RepeatsSymmetric(x: Action, y: Action)
    ensures Repeats(x, y) == Repeats(y, x)
  {
  }

  lemma ClaimAutonomousStep(settings: Settings, b: Backend, i: string, a: string, tool: string, arguments: Json,
                            ids: seq<string>, n: nat, now: int)
    requires Invariant(settings, b)
    ensures Step(settings, b, ClaimAutonomous(settings, b, i, a, tool, arguments, ids, n, now))
  {
    var c := ClaimAutonomous(settings, b, i, a, tool, arguments, ids, n, now);
    if c != b {
      var evidence := ClaimDecides(settings, b, i, a, tool, arguments, ids, n, now);
      var used := if ids == [] then Ids(b.incidents[i].observations) else ids;
      AuthorizedIsJustified(settings, i, b.incidents[i], b.actions, tool, arguments, used, now, evidence);
      AuthorizedIsNew(settings, i, b.incidents[i], b.actions, tool, arguments, used, now, c.actions[a]);
      AddedAutonomy(settings, b, c, i, a);
      AddedAction(settings, b, c, a, n);
    }
  }

  lemma AddedAction(settings: Settings, b: Backend, c: Backend, a: string, n: nat)
    requires Invariant(settings, b) && AutonomyBounded(settings, c)
    requires a !in b.actions && a in c.actions && c.incidents == b.incidents
      && c.actions == b.actions[a := c.actions[a]]
    requires c.actions[a].incident in b.incidents && Consistent(c.actions[a]) && c.actions[a].executed
    requires exists exact :: c.tasks == b.tasks[n := Dispatch(a, false, exact)]
    ensures Step(settings, b, c)
  {
    AddedRows(b, c, a);
    NothingPending(b.actions, a, c.actions[a]);
    assert StatusesConsistent(c);
    RecoveriesKept(settings.topology, b, c);
    TasksKept(settings, b, c);
  }

  lemma AddedRows(b: Backend, c: Backend, a: string)
    requires ActionsConsistent(b) && a !in b.actions && a in c.actions
    requires forall i :: i in b.incidents ==> i in c.incidents && IncidentMoves(b.incidents[i], c.incidents[i])
    requires c.actions == b.actions[a := c.actions[a]] && c.actions[a].incident in b.incidents
      && Consistent(c.actions[a])
    ensures Evolves(b, c) && ActionsConsistent(c)
  {
    assert forall x :: x in c.actions ==> x == a || (x in b.actions && c.actions[x] == b.actions[x]);
  }

  lemma NothingPending(actions: map<string, Action>, a: string, y: Action)
    requires a !in actions && !y.approval.Pending?
    ensures forall j :: PendingIds(actions[a := y], j) == PendingIds(actions, j)
  {
  }

  lemma SettleAutonomousStep(settings: Settings, b: Backend, n: nat, ok: bool, result: Json, o: string, now: int)
    requires Invariant(settings, b)
    ensures Step(settings, b, SettleAutonomous(b, n, ok, result, o, now))
  {
    var c := SettleAutonomous(b, n, ok, result, o, now);
    if c != b {
      var i := b.actions[b.tasks[n].action].incident;
      assert c.tasks == b.tasks[n := c.tasks[n]] && TaskSound(settings, c, c.tasks[n]);
      QuietStep(settings, b, i, c.incidents[i], c.tasks);
    }
  }

  lemma FinishAutonomousStep(settings: Settings, b: Backend, n: nat)
    requires Invariant(settings, b)
    ensures Step(settings, b, FinishAutonomous(b, n))
  {
    var c := FinishAutonomous(b, n);
    if c != b {
      var a := b.tasks[n].purpose.claimed;
      var x, y := b.actions[a], c.actions[a];
      assert x.incident in b.incidents && ActionMoves(x, y) && Consistent(y);
      assert b.incidents[x.incident := b.incidents[x.incident]] == b.incidents;
      assert b.incidents[x.incident].status.WaitingForApproval? ==> PendingIds(b.actions, x.incident) != {};
      assert a in PendingIds(b.actions, x.incident) <==> y.approval.Pending?;
      ActionStep(settings, b, x.incident, b.incidents[x.incident], a, y, c.tasks);
    }
  }

  // --- Restart, and the end of tasks ---

  lemma RestartStep(settings: Settings, b: Backend)
    requires Invariant(settings, b)
    ensures Step(settings, b, Restart(b))
  {
    var c := Restart(b);
    assert Evolves(b, c) && ActionsConsistent(c) && StatusesConsistent(c);
    assert RecoveriesCarried(settings.topology, b, c) && AutonomyCarried(b, c) && TasksCarried(settings, b, c);
    Keeps(settings, b, c);
  }

  lemma AbandonStep(settings: Settings, b: Backend, n: nat)
    requires Invariant(settings, b)
    ensures Step(settings, b, Abandon(b, n))
  {
    TaskStep(settings, b, b.tasks - {n});
  }

  lemma MarkSentStep(settings: Settings, b: Backend, n: nat)
    requires Invariant(settings, b)
    ensures Step(settings, b, MarkSent(b, n))
  {
    var c := MarkSent(b, n);
    if c != b {
      assert TaskSound(settings, b, b.tasks[n]);
      assert TaskSound(settings, c, c.tasks[n]);
      TaskStep(settings, b, c.tasks);
    }
  }

  lemma EmptyKeeps(settings: Settings)
    ensures Invariant(settings, Backend(map[], map[], map[]))
  {
    assert forall i :: AutonomousIds(map[], i) == {};
  }
}
