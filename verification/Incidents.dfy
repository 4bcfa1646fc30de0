/** The incident and action state machine: every atomic segment of the backend between two awaits,
    as a function on its durable rows and its running tasks. */
module Incidents {
  import opened JsonValues
  import opened Topology
  import opened RecoveryChecks
  import opened Records
  import opened Tools
  import opened Autonomy

  /** What a verification is for: the incident's recovery (after an operator's action, if one is
      given), or the exact target of an autonomous action. */
  datatype Purpose = Recovery(action: Option<string>) | ExactTarget(claimed: string, dispatched: bool)

  datatype Task =
    | Dispatch(action: string, sent: bool, exact: seq<Check>)
    | Verify(purpose: Purpose, incident: string, checks: seq<Check>, results: seq<CheckResult>, attempts: nat,
      since: nat)

  datatype Backend = Backend(incidents: map<string, Incident>, actions: map<string, Action>, tasks: map<nat, Task>)

  function TargetOf(a: Action): Target {
    Target(a.tool, a.arguments)
  }

  function WithIncident(b: Backend, i: string, inc: Incident): Backend {
    b.(incidents := b.incidents[i := inc])
  }

  function PendingIds(actions: map<string, Action>, i: string): set<string> {
    set a | a in actions && actions[a].incident == i && actions[a].approval.Pending?
  }

  function WithoutTask(b: Backend, n: nat): Backend {
    b.(tasks := b.tasks - {n})
  }

  // --- The agent's writes ---

  function Create(b: Backend, i: string, service: string): Backend {
    if i in b.incidents then b else WithIncident(b, i, Incident(service, Open, None, [], [], Checked([], 0)))
  }

  function ClaimInvestigation(b: Backend, i: string): Backend {
    if i in b.incidents && b.incidents[i].status in {Open, Interrupted, Escalated}
    then WithIncident(b, i, b.incidents[i].(status := Investigating)) else b
  }

  function StartInvestigation(b: Backend, i: string): Backend {
    if i in b.incidents && b.incidents[i].status !in {Resolved, Verifying, WaitingForApproval}
    then WithIncident(b, i, b.incidents[i].(status := Investigating)) else b
  }

  function Record(b: Backend, i: string, o: Observation): Backend {
    if i in b.incidents then WithIncident(b, i, b.incidents[i].(observations := b.incidents[i].observations + [o]))
    else b
  }

  /** A diagnostic's reply is recorded: one of an investigation, or the check before an operator's request. */
  function Observe(b: Backend, i: string, tool: string, arguments: Json, ok: bool, result: Json, o: string,
                   precheck: bool, now: int): Backend
  {
    Record(b, i, Observation(o, tool, arguments, ok, result, if precheck then Precheck else Investigation, now))
  }

  function Diagnose(b: Backend, i: string, ids: seq<string>): Backend {
    if i in b.incidents && ValidEvidence(b.incidents[i], ids)
    then WithIncident(b, i, b.incidents[i].(status := Open, cited := ids)) else b
  }

  /** Whether the container runs, as far as the inspection says. */
  function Running(state: Json): Option<Json> {
    match Lookup(state, "state")
    case Some(JObj(fields)) => Lookup(JObj(fields), "running")
    case Some(JStr(s)) => Some(JBool(s == "running"))
    case _ => None
  }

  /** validate_remediation_preconditions. */
  predicate MayPropose(inc: Incident, tool: string, arguments: Json) {
    var key := TargetKey(tool);
    var states := StatesOf(inc.observations, key, GetOrNull(arguments, key));
    && states != []
    && if key == "container" then ContainerSuggests(tool, Normalized(states[|states| - 1]))
       else UnitSuggests(tool, Lookup(Normalized(states[|states| - 1]), "state"))
  }

  predicate ContainerSuggests(tool: string, state: Json) {
    var unhealthy := IsText(Lookup(state, "health"), "unhealthy") || Truthy(Nested(state, "state", "restarting"));
    && (tool == "start_container" ==> IsFalse(Running(state)))
    && (tool == "restart_container" ==> IsTrue(Running(state)) && unhealthy)
  }

  predicate UnitSuggests(tool: string, active: Option<Json>) {
    && (tool == "start_service" ==> IsText(active, "inactive") || IsText(active, "failed"))
    && (tool == "restart_service" ==> IsText(active, "active"))
  }

  predicate Duplicates(a: Action, i: string, tool: string, arguments: Json) {
    a.incident == i && a.tool == tool && Same(a.arguments, arguments) && a.approval.Pending?
  }

  predicate AlreadyPending(actions: map<string, Action>, i: string, tool: string, arguments: Json) {
    exists x | x in actions.Keys :: Duplicates(actions[x], i, tool, arguments)
  }

  predicate Proposable(settings: Settings, inc: Incident, tool: string, arguments: Json) {
    && settings.writes && Permitted(settings, tool, arguments, true) && IsWrite(tool)
    && MayPropose(inc, tool, arguments) && inc.cited != []
  }

  /** propose_action: an identical pending action is reused, without touching the status. */
  function Propose(settings: Settings, b: Backend, i: string, a: string, tool: string, arguments: Json,
                   now: int): Backend
  {
    if i !in b.incidents then b
    else
      ProposeWhen(Proposable(settings, b.incidents[i], tool, arguments), b, a,
                  Action(i, tool, arguments, true, now + settings.ttl, Pending, false, 0, [], NotRun))
  }

  function ProposeWhen(proposable: bool, b: Backend, a: string, action: Action): Backend
    requires action.incident in b.incidents
  {
    var i := action.incident;
    if !proposable || AlreadyPending(b.actions, i, action.tool, action.arguments) || a in b.actions then b
    else WithIncident(b, i, b.incidents[i].(status := WaitingForApproval)).(actions := b.actions[a := action])
  }

  function Conclude(b: Backend, i: string, escalated: bool): Backend {
    if i in b.incidents then WithIncident(b, i, b.incidents[i].(status := if escalated then Escalated else Open)) else b
  }

  function Fail(b: Backend, i: string): Backend {
    if i in b.incidents then WithIncident(b, i, b.incidents[i].(status := Interrupted)) else b
  }

  // --- Operator decisions ---

  predicate Runnable(settings: Settings, checks: Outcome<seq<Check>>) {
    checks.Ok? && forall c | c in checks.value :: Permitted(settings, c.tool, c.arguments, false)
  }

  /** Everything that has to hold before an approval claims the action. */
  predicate MayClaim(settings: Settings, inc: Incident, a: Action) {
    && inc.status.WaitingForApproval? && ValidEvidence(inc, inc.cited)
    && Permitted(settings, a.tool, a.arguments, true)
    && Runnable(settings, VerificationChecks(settings.topology, inc.service, Some(TargetOf(a))))
  }

  /** _approve, up to the dispatch: the claim is durable before anything is sent. */
  function Approve(settings: Settings, b: Backend, a: string, n: nat, now: int): Backend {
    if !settings.writes || a !in b.actions || b.actions[a].incident !in b.incidents then b
    else if !b.actions[a].approval.Pending? || b.actions[a].executed then b
    else
      var action := b.actions[a];
      var i := action.incident;
      if action.expires <= now then
        var expired := b.(actions := b.actions[a := action.(approval := Expired)]);
        if PendingIds(b.actions, i) - {a} != {} then expired
        else WithIncident(expired, i, b.incidents[i].(status := Open))
      else if !MayClaim(settings, b.incidents[i], action) || n in b.tasks then b
      else
        Backend(b.incidents[i := b.incidents[i].(status := Verifying)],
                b.actions[a := action.(approval := Approved, executed := true, claimedAt := now)],
                b.tasks[n := Dispatch(a, false, [])])
  }

  /** The reply to an approved dispatch, a failure to send it, or its timeout. */
  function Settle(b: Backend, n: nat, ok: bool): Backend {
    if n !in b.tasks || !b.tasks[n].Dispatch? || b.tasks[n].action !in b.actions then b
    else
      var a := b.tasks[n].action;
      var action := b.actions[a];
      if !action.requiresApproval || action.incident !in b.incidents then b
      else if ok then WithoutTask(b, n)
      else
        var i := action.incident;
        var others := PendingIds(b.actions, i) - {a};
        WithIncident(WithoutTask(b, n), i,
                     b.incidents[i].(status := if others != {} then WaitingForApproval else Open)).(
          actions := b.actions[a := action.(verdict := Failed)])
  }

  function Reject(b: Backend, a: string): Backend {
    if a !in b.actions || !b.actions[a].approval.Pending? || b.actions[a].incident !in b.incidents then b
    else
      var i := b.actions[a].incident;
      var rejected := b.(actions := b.actions[a := b.actions[a].(approval := Rejected)]);
      if b.incidents[i].status !in {Verifying, Investigating} && PendingIds(b.actions, i) - {a} == {}
      then WithIncident(rejected, i, b.incidents[i].(status := Open)) else rejected
  }

  // --- Verification ---

  function ActionTarget(b: Backend, action: Option<string>): Option<Target>
    requires action.Some? ==> action.value in b.actions
  {
    if action.Some? then Some(TargetOf(b.actions[action.value])) else None
  }

  function BeginVerification(settings: Settings, b: Backend, i: string, action: Option<string>, n: nat): Backend {
    if i !in b.incidents || b.incidents[i].status.Investigating? || b.incidents[i].cited == [] then b
    else if action.Some? && (action.value !in b.actions || b.actions[action.value].incident != i) then b
    else
      var checks := VerificationChecks(settings.topology, b.incidents[i].service, ActionTarget(b, action));
      if checks.Refused? then
        var blocked := WithIncident(b, i, b.incidents[i].(status := Open));
        if action.None? then blocked
        else blocked.(actions := b.actions[action.value := b.actions[action.value].(verdict := Blocked)])
      else if !Runnable(settings, checks) || n in b.tasks then b
      else
        WithIncident(b, i, b.incidents[i].(status := Verifying)).(
          tasks := b.tasks[n := Verify(Recovery(action), i, checks.value, [], 0, |b.incidents[i].observations|)])
  }

  predicate ExactlyTargets(c: Check, a: Action) {
    var key := TargetKey(a.tool);
    c.tool == StateTool(key) && Same(c.arguments, JObj([Field(key, GetOrNull(a.arguments, key))]))
  }

  /** How often a check is tried before it counts as failed. */
  function Tries(b: Backend, purpose: Purpose, c: Check): nat {
    match purpose
    case Recovery(Some(a)) =>
      if a in b.actions && ExactlyTargets(c, b.actions[a]) && !IsStop(b.actions[a].tool) then 7 else 1
    case Recovery(None) => 1
    case ExactTarget(_, dispatched) => if dispatched then 4 else 1
  }

  /** One attempt at the next check: the reply is recorded, and the check is settled when it passed
      or was the last attempt. */
  function Attempt(b: Backend, n: nat, ok: bool, result: Json, o: string, now: int): Backend {
    if n !in b.tasks || !b.tasks[n].Verify? then b
    else
      var t := b.tasks[n];
      if |t.results| >= |t.checks| || t.incident !in b.incidents then b
      else
        var c := t.checks[|t.results|];
        var passed := ok && Matches(result, c.expected);
        var recorded := Record(b, t.incident, Observation(o, c.tool, c.arguments, ok, result, Verification, now));
        recorded.(tasks := b.tasks[n :=
          if passed || t.attempts + 1 >= Tries(b, t.purpose, c)
          then t.(results := t.results + [CheckResult(c, passed, o, |b.incidents[t.incident].observations|)],
            attempts := 0)
          else t.(attempts := t.attempts + 1)])
  }

  predicate AllPassed(results: seq<CheckResult>) {
    results != [] && forall r | r in results :: r.passed
  }

  /** Recovery makes the remaining proposals stale. */
  function ExpirePending(actions: map<string, Action>, i: string): map<string, Action> {
    map a | a in actions ::
      if actions[a].incident == i && actions[a].approval.Pending? then actions[a].(approval := Expired) else actions[a]
  }

  predicate Finished(b: Backend, n: nat) {
    n in b.tasks && b.tasks[n].Verify? && |b.tasks[n].results| == |b.tasks[n].checks|
  }

  function FinishVerification(b: Backend, n: nat, now: int): Backend {
    if !Finished(b, n) || !b.tasks[n].purpose.Recovery? || b.tasks[n].incident !in b.incidents then b
    else
      var t := b.tasks[n];
      var a := t.purpose.action;
      if a.Some? && a.value !in b.actions then b
      else
        var verified := AllPassed(t.results);
        var stopped := a.Some? && IsStop(b.actions[a.value].tool);
        var judged :=
          if a.None? then b.actions
          else b.actions[a.value := b.actions[a.value].(verdict := if verified then Passed else Failed)];
        WithIncident(WithoutTask(b, n), t.incident, b.incidents[t.incident].(
          status := if stopped then Open else if verified then Resolved
                    else if PendingIds(b.actions, t.incident) != {} then WaitingForApproval else Open,
          resolvedAt := if !stopped && verified then Some(now) else None,
          verification := Checked(t.results, t.since))).(
          actions := if verified then ExpirePending(judged, t.incident) else judged)
  }

  // --- Autonomous actions ---

  function KeepExact(checks: seq<Check>, a: Action): (r: seq<Check>)
    ensures forall c :: c in r <==> c in checks && ExactlyTargets(c, a)
  {
    if checks == [] then []
    else
      assert checks == [checks[0]] + checks[1..];
      if ExactlyTargets(checks[0], a) then [checks[0]] + KeepExact(checks[1..], a) else KeepExact(checks[1..], a)
  }

  /** The action that the policy allows, with the checks of its exact target. No ids means all
      observations of the incident. */
  function Decide(settings: Settings, i: string, inc: Incident, actions: map<string, Action>, tool: string,
                  arguments: Json, ids: seq<string>, now: int): Option<(Action, seq<Check>)>
  {
    var used := if ids == [] then Ids(inc.observations) else ids;
    var evidence := Authorize(settings, i, inc, actions, tool, arguments, used, now);
    if evidence.None? then None
    else
      var checks := VerificationChecks(settings.topology, inc.service, Some(Target(tool, arguments)));
      if checks.Refused? then None
      else
        var action := Action(i, tool, arguments, false, now, AutoAuthorized, true, now, Ids(evidence.value), NotRun);
        var exact := KeepExact(checks.value, action);
        if exact == [] || !Runnable(settings, Ok(exact)) then None else Some((action, exact))
  }

  /** _execute_autonomous, up to the dispatch. */
  function ClaimAutonomous(settings: Settings, b: Backend, i: string, a: string, tool: string, arguments: Json,
                           ids: seq<string>, n: nat, now: int): Backend
  {
    if i !in b.incidents || a in b.actions || n in b.tasks then b
    else
      match Decide(settings, i, b.incidents[i], b.actions, tool, arguments, ids, now)
      case None => b
      case Some((action, exact)) =>
        b.(actions := b.actions[a := action], tasks := b.tasks[n := Dispatch(a, false, exact)])
  }

  /** The outcome is recorded, and whatever it was, the exact target is then inspected. */
  function SettleAutonomous(b: Backend, n: nat, ok: bool, result: Json, o: string, now: int): Backend {
    if n !in b.tasks || !b.tasks[n].Dispatch? || b.tasks[n].action !in b.actions then b
    else
      var a := b.tasks[n].action;
      var action := b.actions[a];
      if action.requiresApproval || action.incident !in b.incidents then b
      else
        var recorded := Record(b, action.incident,
          Observation(o, action.tool, action.arguments, ok, result, Remediation, now));
        recorded.(tasks := b.tasks[n :=
          Verify(ExactTarget(a, ok), action.incident, b.tasks[n].exact, [], 0,
            |recorded.incidents[action.incident].observations|)])
  }

  function FinishAutonomous(b: Backend, n: nat): Backend {
    if !Finished(b, n) || !b.tasks[n].purpose.ExactTarget? || b.tasks[n].purpose.claimed !in b.actions then b
    else
      var t := b.tasks[n];
      WithoutTask(b, n).(actions :=
        b.actions[t.purpose.claimed :=
          b.actions[t.purpose.claimed].(verdict := if AllPassed(t.results) then Passed else Failed)])
  }

  /** A running task ends early: its investigation ran out of time, or a later step raised. */
  function Abandon(b: Backend, n: nat): Backend {
    WithoutTask(b, n)
  }

  /** A backend restart: running work is lost, interrupted incidents are marked, nothing is replayed. */
  function Restart(b: Backend): Backend {
    Backend(map i | i in b.incidents ::
              if b.incidents[i].status in {Investigating, Verifying} then b.incidents[i].(status := Interrupted)
              else b.incidents[i],
            b.actions, map[])
  }

  /** The signature of a claimed dispatch is made once. */
  function MarkSent(b: Backend, n: nat): Backend {
    if n in b.tasks && b.tasks[n].Dispatch? then b.(tasks := b.tasks[n := b.tasks[n].(sent := true)]) else b
  }

  // --- Runs of the backend ---

  datatype Event =
    | Creation(i: string, service: string)
    | Claim(i: string)
    | Start(i: string)
    | Observing(i: string, tool: string, arguments: Json, ok: bool, result: Json, id: string, precheck: bool)
    | Diagnosis(i: string, ids: seq<string>)
    | Proposal(i: string, a: string, tool: string, arguments: Json)
    | Conclusion(i: string, escalated: bool)
    | Failure(i: string)
    | Approving(a: string, n: nat)
    | Settling(n: nat, ok: bool)
    | Rejecting(a: string)
    | Checking(i: string, action: Option<string>, n: nat)
    | Attempting(n: nat, ok: bool, result: Json, id: string)
    | Finishing(n: nat)
    | AutonomousClaim(i: string, a: string, tool: string, arguments: Json, ids: seq<string>, n: nat)
    | AutonomousSettling(n: nat, ok: bool, result: Json, id: string)
    | AutonomousFinishing(n: nat)
    | Abandoning(n: nat)
    | Restarting
    | Sending(n: nat)

  function Apply(settings: Settings, b: Backend, e: Event, now: int): Backend {
    match e
    case Creation(i, service) => Create(b, i, service)
    case Claim(i) => ClaimInvestigation(b, i)
    case Start(i) => StartInvestigation(b, i)
    case Observing(i, tool, arguments, ok, result, o, precheck) =>
      Observe(b, i, tool, arguments, ok, result, o, precheck, now)
    case Diagnosis(i, ids) => Diagnose(b, i, ids)
    case Proposal(i, a, tool, arguments) => Propose(settings, b, i, a, tool, arguments, now)
    case Conclusion(i, escalated) => Conclude(b, i, escalated)
    case Failure(i) => Fail(b, i)
    case Approving(a, n) => Approve(settings, b, a, n, now)
    case Settling(n, ok) => Settle(b, n, ok)
    case Rejecting(a) => Reject(b, a)
    case Checking(i, action, n) => BeginVerification(settings, b, i, action, n)
    case Attempting(n, ok, result, o) => Attempt(b, n, ok, result, o, now)
    case Finishing(n) => FinishVerification(b, n, now)
    case AutonomousClaim(i, a, tool, arguments, ids, n) =>
      ClaimAutonomous(settings, b, i, a, tool, arguments, ids, n, now)
    case AutonomousSettling(n, ok, result, o) => SettleAutonomous(b, n, ok, result, o, now)
    case AutonomousFinishing(n) => FinishAutonomous(b, n)
    case Abandoning(n) => Abandon(b, n)
    case Restarting => Restart(b)
    case Sending(n) => MarkSent(b, n)
  }
}
