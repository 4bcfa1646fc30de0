/** What each event of the backend amounts to, said on the rows: exactly when it does something, and the
    state it leaves. */
module Outcomes {
  import opened JsonValues
  import opened Topology
  import opened RecoveryChecks
  import opened Records
  import opened Tools
  import opened Autonomy
  import opened Incidents
  import opened IncidentInvariants
  import opened Claims
  import Policy = AutonomyPolicy

  // --- Proposals ---

  /** The inspection shows the container running, or not: in its details, or as one word. */
  predicate ShowsRunning(o: Observation, running: bool) {
    || Policy.ShowsWithin(o, "state", "running", JBool(running))
    || (&& o.result.JObj? && Has(o.result.fields, "state") && Get(o.result.fields, "state").JStr?
        && (Get(o.result.fields, "state").s == "running" <==> running))
  }

  predicate ShowsUnhealthy(o: Observation) {
    || Policy.Shows(o, "health", JStr("unhealthy"))
    || (&& o.result.JObj? && Has(o.result.fields, "state") && Get(o.result.fields, "state").JObj?
        && var details := Get(o.result.fields, "state").fields;
           Has(details, "restarting") && Truthy(Some(Get(details, "restarting"))))
  }

  /** What the latest inspection has to show before an operator is asked. */
  predicate Suggests(tool: string, o: Observation) {
    && (tool == "start_container" ==> ShowsRunning(o, false))
    && (tool == "restart_container" ==> ShowsRunning(o, true) && ShowsUnhealthy(o))
    && (tool == "start_service"
        ==> Policy.Shows(o, "state", JStr("inactive")) || Policy.Shows(o, "state", JStr("failed")))
    && (tool == "restart_service" ==> Policy.Shows(o, "state", JStr("active")))
  }

  /** An operator may be asked: writes are on, the registry offers the write, a diagnosis was saved, and the
      latest successful inspection of exactly this target suggests it. */
  ghost predicate Askable(settings: Settings, inc: Incident, tool: string, arguments: Json) {
    && settings.writes && IsWrite(tool) && Offers(settings, tool, arguments, LowRiskWrite) && inc.cited != []
    && exists k: nat ::
         && Policy.LatestInspection(inc.observations, k, Policy.Kind(tool), GetOrNull(arguments, Policy.Kind(tool)))
         && Suggests(tool, inc.observations[k])
  }

  lemma RunningExactly(o: Observation, running: bool)
    ensures Running(Normalized(o)) == Some(JBool(running)) <==> ShowsRunning(o, running)
  {
    if !o.result.JObj? { assert Normalized(o).fields[1..] == []; }
  }

  lemma UnhealthyExactly(o: Observation)
    ensures var state := Normalized(o);
      (IsText(Lookup(state, "health"), "unhealthy") || Truthy(Nested(state, "state", "restarting")))
        <==> ShowsUnhealthy(o)
  {
    if !o.result.JObj? { assert Normalized(o).fields[1..] == []; }
  }

  /** Reading the last successful inspection decides by what it shows. */
  lemma MayProposeExactly(inc: Incident, tool: string, arguments: Json)
    requires IsWrite(tool)
    ensures MayPropose(inc, tool, arguments) <==> exists k: nat ::
      && Policy.LatestInspection(inc.observations, k, Policy.Kind(tool), GetOrNull(arguments, Policy.Kind(tool)))
      && Suggests(tool, inc.observations[k])
  {
    var kind, target := Policy.Kind(tool), GetOrNull(arguments, Policy.Kind(tool));
    Policy.KindsAndKeys(tool);
    Policy.LatestExactly(inc.observations, kind, target);
    forall k: nat | Policy.LatestInspection(inc.observations, k, kind, target)
      ensures MayPropose(inc, tool, arguments) <==> Suggests(tool, inc.observations[k])
    {
      SuggestedAt(inc, tool, arguments, k);
    }
  }

  lemma SuggestedAt(inc: Incident, tool: string, arguments: Json, k: nat)
    requires IsWrite(tool)
    requires Policy.LatestInspection(inc.observations, k, Policy.Kind(tool), GetOrNull(arguments, Policy.Kind(tool)))
    ensures MayPropose(inc, tool, arguments) <==> Suggests(tool, inc.observations[k])
  {
    var o := inc.observations[k];
    Policy.KindsAndKeys(tool);
    Policy.LatestExactly(inc.observations, Policy.Kind(tool), GetOrNull(arguments, Policy.Kind(tool)));
    Policy.NormalizedShows(o);
    RunningExactly(o, true);
    RunningExactly(o, false);
    UnhealthyExactly(o);
  }

  // --- What an event amounts to ---

  predicate PendingAt(b: Backend, a: string) {
    a in b.actions && b.actions[a].approval.Pending?
  }

  /** Some action of the incident, other than the given one, still waits for a decision. */
  ghost predicate Undecided(b: Backend, i: string, except: Option<string>) {
    exists x :: PendingAt(b, x) && b.actions[x].incident == i && Some(x) != except
  }

  /** A new action is put before the operator: it may be, and the same is not waiting already. */
  ghost predicate Asks(settings: Settings, b: Backend, e: Event) {
    && e.Proposal? && e.i in b.incidents && e.a !in b.actions
    && Askable(settings, b.incidents[e.i], e.tool, e.arguments)
    && forall x :: PendingAt(b, x) && b.actions[x].incident == e.i && b.actions[x].tool == e.tool ==>
         !Same(b.actions[x].arguments, e.arguments)
  }

  /** The agent acts by itself, on fresh evidence that warrants it. */
  ghost predicate ActsByItself(settings: Settings, b: Backend, e: Event, now: int) {
    && e.AutonomousClaim? && e.i in b.incidents && e.a !in b.actions && e.n !in b.tasks
    && exists evidence ::
         Claimable(settings, e.i, b.incidents[e.i], b.actions, e.tool, e.arguments, Cited(b.incidents[e.i], e.ids), now,
           evidence)
  }

  ghost predicate Approves(settings: Settings, b: Backend, e: Event, now: int, a: string) {
    && e.Approving? && e.a == a && PendingAt(b, a) && now < b.actions[a].expires && e.n !in b.tasks
    && b.actions[a].incident in b.incidents && Approvable(settings, b.incidents[b.actions[a].incident], b.actions[a])
  }

  /** The approval comes too late. */
  predicate Lapses(settings: Settings, b: Backend, e: Event, now: int, a: string) {
    settings.writes && e.Approving? && e.a == a && PendingAt(b, a) && b.actions[a].expires <= now
  }

  predicate Refuses(b: Backend, e: Event, a: string) {
    e.Rejecting? && e.a == a && PendingAt(b, a)
  }

  /** The reply to an operator's dispatch. */
  predicate Replies(b: Backend, e: Event, a: string) {
    && e.Settling? && e.n in b.tasks && b.tasks[e.n].Dispatch? && b.tasks[e.n].action == a
    && a in b.actions && b.actions[a].requiresApproval
  }

  /** The reply to a dispatch of the agent's own. */
  predicate ReportsBack(b: Backend, e: Event, a: string) {
    && e.AutonomousSettling? && e.n in b.tasks && b.tasks[e.n].Dispatch? && b.tasks[e.n].action == a
    && a in b.actions && !b.actions[a].requiresApproval
  }

  /** A recovery of the incident has all its results. */
  predicate Ends(b: Backend, e: Event, i: string) {
    && e.Finishing? && e.n in b.tasks && b.tasks[e.n].Verify? && b.tasks[e.n].purpose.Recovery?
    && b.tasks[e.n].incident == i && |b.tasks[e.n].results| == |b.tasks[e.n].checks|
  }

  /** The inspection of an autonomous action has all its results. */
  predicate EndsExact(b: Backend, e: Event, a: string) {
    && e.AutonomousFinishing? && e.n in b.tasks && b.tasks[e.n].Verify? && b.tasks[e.n].purpose.ExactTarget?
    && b.tasks[e.n].purpose.claimed == a && |b.tasks[e.n].results| == |b.tasks[e.n].checks|
  }

  predicate Good(t: Task)
    requires t.Verify?
  {
    t.results != [] && forall r :: r in t.results ==> r.passed
  }

  /** What is verified is that a stop stopped. */
  predicate OfStop(b: Backend, t: Task)
    requires t.Verify? && t.purpose.Recovery?
  {
    && t.purpose.action.Some? && t.purpose.action.value in b.actions
    && (b.actions[t.purpose.action.value].tool == "stop_container"
       || b.actions[t.purpose.action.value].tool == "stop_service")
  }

  /** A verification of a diagnosed incident is asked for, after no action or after one of its own. */
  predicate AsksToVerify(b: Backend, e: Event) {
    && e.Checking? && e.i in b.incidents && !b.incidents[e.i].status.Investigating? && b.incidents[e.i].cited != []
    && (e.action.Some? ==> e.action.value in b.actions && b.actions[e.action.value].incident == e.i)
  }

  function After(b: Backend, action: Option<string>): Option<Target>
    requires action.Some? ==> action.value in b.actions
  {
    match action
    case None => None
    case Some(a) => Some(Target(b.actions[a].tool, b.actions[a].arguments))
  }

  /** The action an operator's event or a reply is about. */
  function About(b: Backend, e: Event): string {
    match e
    case Approving(a, _) => a
    case Rejecting(a) => a
    case Settling(n, _) => if n in b.tasks && b.tasks[n].Dispatch? then b.tasks[n].action else ""
    case _ => ""
  }

  /** The event is about this action of the incident. */
  predicate Concerns(b: Backend, e: Event, i: string) {
    About(b, e) in b.actions && b.actions[About(b, e)].incident == i
  }

  /** No configured check could show it. */
  ghost predicate Blocks(settings: Settings, b: Backend, e: Event) {
    AsksToVerify(b, e) && !Verifiable(settings.topology, b.incidents[e.i].service, After(b, e.action))
  }

  ghost predicate BeginsToVerify(settings: Settings, b: Backend, e: Event) {
    && AsksToVerify(b, e) && e.n !in b.tasks
    && Checkable(settings, b.incidents[e.i].service, After(b, e.action))
  }

  // --- Proposals, decisions and replies ---

  lemma PendingExactly(b: Backend, i: string, except: Option<string>)
    ensures PendingIds(b.actions, i) - (if except.Some? then {except.value} else {}) != {} <==> Undecided(b, i, except)
  {
    forall x ensures x in PendingIds(b.actions, i) <==> PendingAt(b, x) && b.actions[x].incident == i {}
    if Undecided(b, i, except) {
      var x :| PendingAt(b, x) && b.actions[x].incident == i && Some(x) != except;
      assert x in PendingIds(b.actions, i) - (if except.Some? then {except.value} else {});
    }
  }

  /** A new proposal installs a pending row and the waiting status, and any other changes nothing. */
  lemma AsksExactly(settings: Settings, b: Backend, i: string, a: string, tool: string, arguments: Json, now: int)
    ensures Propose(settings, b, i, a, tool, arguments, now) ==
      if Asks(settings, b, Proposal(i, a, tool, arguments)) then
        Backend(b.incidents[i := b.incidents[i].(status := WaitingForApproval)],
                b.actions[a := Action(i, tool, arguments, true, now + settings.ttl, Pending, false, 0, [], NotRun)],
                b.tasks)
      else b
  {
    if i in b.incidents {
      ProposableExactly(settings, b.incidents[i], tool, arguments);
      DuplicateExactly(b, i, tool, arguments);
      ProposeByTheGate(settings, b, i, a, tool, arguments, now);
    }
  }

  lemma ProposeByTheGate(settings: Settings, b: Backend, i: string, a: string, tool: string, arguments: Json,
                         now: int)
    requires i in b.incidents
    ensures Propose(settings, b, i, a, tool, arguments, now)
      == ProposeWhen(Proposable(settings, b.incidents[i], tool, arguments), b, a,
                     Action(i, tool, arguments, true, now + settings.ttl, Pending, false, 0, [], NotRun))
  {
  }

  lemma ProposableExactly(settings: Settings, inc: Incident, tool: string, arguments: Json)
    ensures Proposable(settings, inc, tool, arguments) <==> Askable(settings, inc, tool, arguments)
  {
    PermittedExactly(settings, tool, arguments, true);
    if IsWrite(tool) { MayProposeExactly(inc, tool, arguments); }
  }

  lemma DuplicateExactly(b: Backend, i: string, tool: string, arguments: Json)
    ensures AlreadyPending(b.actions, i, tool, arguments) <==>
      !forall x :: PendingAt(b, x) && b.actions[x].incident == i && b.actions[x].tool == tool ==>
        !Same(b.actions[x].arguments, arguments)
  {
    forall x | PendingAt(b, x) && b.actions[x].incident == i && b.actions[x].tool == tool
      && Same(b.actions[x].arguments, arguments)
      ensures AlreadyPending(b.actions, i, tool, arguments)
    {
      assert Duplicates(b.actions[x], i, tool, arguments);
    }
  }

  /** The state after the approval of action `a` came too late. */
  ghost function Lapsed(b: Backend, a: string): Backend
    requires a in b.actions && b.actions[a].incident in b.incidents
  {
    var i := b.actions[a].incident;
    Backend(
      if Undecided(b, i, Some(a)) then b.incidents else b.incidents[i := b.incidents[i].(status := Open)],
      b.actions[a := b.actions[a].(approval := Expired)], b.tasks)
  }

  /** An approval claims the action, or expires it, or changes nothing. */
  lemma ApprovingExactly(settings: Settings, b: Backend, a: string, n: nat, now: int)
    requires ActionsConsistent(b)
    ensures Approve(settings, b, a, n, now) ==
      if Approves(settings, b, Approving(a, n), now, a) then Claimed(b, a, n, now)
      else if Lapses(settings, b, Approving(a, n), now, a) then Lapsed(b, a)
      else b
  {
    if PendingAt(b, a) {
      MayClaimExactly(settings, b.incidents[b.actions[a].incident], b.actions[a]);
      PendingExactly(b, b.actions[a].incident, Some(a));
    }
    ApprovingAtTheGate(settings, b, a, n, now);
  }

  lemma ApprovingAtTheGate(settings: Settings, b: Backend, a: string, n: nat, now: int)
    requires ActionsConsistent(b)
    ensures Approve(settings, b, a, n, now) ==
      if !settings.writes || !PendingAt(b, a) then b
      else
        var i := b.actions[a].incident;
        if b.actions[a].expires <= now then
          Backend(
            if PendingIds(b.actions, i) - {a} != {} then b.incidents
            else b.incidents[i := b.incidents[i].(status := Open)],
            b.actions[a := b.actions[a].(approval := Expired)], b.tasks)
        else if MayClaim(settings, b.incidents[i], b.actions[a]) && n !in b.tasks then Claimed(b, a, n, now)
        else b
  {
  }

  /** The reply ends the dispatch; a failure is noted, and what remains to decide keeps the incident waiting. */
  lemma SettlingExactly(b: Backend, n: nat, ok: bool, a: string)
    requires ActionsConsistent(b) && Replies(b, Settling(n, ok), a)
    ensures var i := b.actions[a].incident;
      Settle(b, n, ok) ==
      if ok then Backend(b.incidents, b.actions, b.tasks - {n})
      else
        Backend(b.incidents[i := b.incidents[i].(status := if Undecided(b, i, Some(a)) then WaitingForApproval
          else Open)],
                b.actions[a := b.actions[a].(verdict := Failed)], b.tasks - {n})
  {
    PendingExactly(b, b.actions[a].incident, Some(a));
  }

  lemma SettlingOnlySo(b: Backend, n: nat, ok: bool)
    requires ActionsConsistent(b) && !Replies(b, Settling(n, ok), About(b, Settling(n, ok)))
    ensures Settle(b, n, ok) == b
  {
  }

  /** A rejection rejects a pending action, and reopens its incident if nothing is left to decide on and no
      work is under way. */
  lemma RejectingExactly(b: Backend, a: string)
    requires ActionsConsistent(b)
    ensures Reject(b, a) ==
      if !PendingAt(b, a) then b
      else
        var i := b.actions[a].incident;
        var idle := b.incidents[i].status !in {Verifying, Investigating} && !Undecided(b, i, Some(a));
        Backend(if idle then b.incidents[i := b.incidents[i].(status := Open)] else b.incidents,
                b.actions[a := b.actions[a].(approval := Rejected)], b.tasks)
  {
    if PendingAt(b, a) { PendingExactly(b, b.actions[a].incident, Some(a)); }
  }

  // --- Verifications ---

  /** The rows that the running tasks are about exist. */
  predicate Anchored(b: Backend) {
    forall n | n in b.tasks && b.tasks[n].Verify? ::
      && b.tasks[n].incident in b.incidents
      && match b.tasks[n].purpose
         case Recovery(action) => action.Some?
           ==> action.value in b.actions && b.actions[action.value].incident == b.tasks[n].incident
         case ExactTarget(a, _) => a in b.actions && b.actions[a].incident == b.tasks[n].incident
  }

  lemma SoundIsAnchored(settings: Settings, b: Backend)
    requires TasksSound(settings, b)
    ensures Anchored(b)
  {
    forall n | n in b.tasks ensures TaskSound(settings, b, b.tasks[n]) {}
  }

  /** The state in which task `n` verifies recovery by these checks. */
  function Begun(b: Backend, i: string, action: Option<string>, n: nat, checks: seq<Check>): Backend
    requires i in b.incidents
  {
    Backend(b.incidents[i := b.incidents[i].(status := Verifying)], b.actions,
            b.tasks[n := Verify(Recovery(action), i, checks, [], 0, |b.incidents[i].observations|)])
  }

  /** The state in which a verification turned out impossible. */
  function Unverifiable(b: Backend, i: string, action: Option<string>): Backend
    requires i in b.incidents && (action.Some? ==> action.value in b.actions)
  {
    Backend(b.incidents[i := b.incidents[i].(status := Open)],
            if action.None? then b.actions else b.actions[action.value := b.actions[action.value].(verdict := Blocked)],
            b.tasks)
  }

  lemma BeginningAtTheGate(settings: Settings, b: Backend, i: string, action: Option<string>, n: nat)
    ensures BeginVerification(settings, b, i, action, n) ==
      if !AsksToVerify(b, Checking(i, action, n)) then b
      else
        var checks := VerificationChecks(settings.topology, b.incidents[i].service, After(b, action));
        if checks.Refused? then Unverifiable(b, i, action)
        else if Runnable(settings, checks) && n !in b.tasks then Begun(b, i, action, n, checks.value)
        else b
  {
  }

  /** A verification begins when every check it needs can be run, with the checks of the topology; it is
      blocked when no configured check could show the recovery; and otherwise nothing changes. */
  lemma BeginningExactly(settings: Settings, b: Backend, i: string, action: Option<string>, n: nat)
    ensures var e := Checking(i, action, n);
      BeginVerification(settings, b, i, action, n) ==
      if Blocks(settings, b, e) then Unverifiable(b, i, action)
      else if BeginsToVerify(settings, b, e) then
        Begun(b, i, action, n, VerificationChecks(settings.topology, b.incidents[i].service, After(b, action)).value)
      else b
  {
    BeginningAtTheGate(settings, b, i, action, n);
    if AsksToVerify(b, Checking(i, action, n)) {
      VerifiableExactly(settings.topology, b.incidents[i].service, After(b, action));
      CheckableExactly(settings, b.incidents[i].service, After(b, action));
    }
  }

  /** How often the program may try a check: while what was started or restarted comes up, its own
      inspection is tried seven times after an operator's action and four times after the agent's. */
  function Allowed(b: Backend, purpose: Purpose, c: Check): nat {
    match purpose
    case Recovery(Some(a)) =>
      if a in b.actions && b.actions[a].tool in Policy.BY_ITSELF
        && OfTarget(c, b.actions[a].tool, GetOrNull(b.actions[a].arguments, Policy.Kind(b.actions[a].tool)))
      then 7 else 1
    case Recovery(None) => 1
    case ExactTarget(_, dispatched) => if dispatched then 4 else 1
  }

  lemma TriesExactly(b: Backend, purpose: Purpose, c: Check)
    requires ActionsConsistent(b)
    ensures Tries(b, purpose, c) == Allowed(b, purpose, c)
  {
    if purpose.Recovery? && purpose.action.Some? && purpose.action.value in b.actions {
      var a := b.actions[purpose.action.value];
      Policy.ByItselfExactly(a.tool);
      if a.tool in Policy.BY_ITSELF { ExactlyTargetsExactly(c, a); }
    }
  }

  /** The reply passes the check: it succeeded, and every expected path leads to its value. */
  ghost predicate Passes(ok: bool, result: Json, c: Check) {
    ok && forall f :: f in c.expected ==> Holds(result, f)
  }

  /** Task `t` after an attempt at its next check. */
  ghost function Tried(b: Backend, t: Task, ok: bool, result: Json, o: string): Task
    requires t.Verify? && |t.results| < |t.checks| && t.incident in b.incidents
  {
    var c := t.checks[|t.results|];
    var passed := Passes(ok, result, c);
    if passed || t.attempts + 1 >= Allowed(b, t.purpose, c)
    then t.(results := t.results + [CheckResult(c, passed, o, |b.incidents[t.incident].observations|)], attempts := 0)
    else t.(attempts := t.attempts + 1)
  }

  predicate CanTry(b: Backend, n: nat) {
    n in b.tasks && b.tasks[n].Verify? && |b.tasks[n].results| < |b.tasks[n].checks|
      && b.tasks[n].incident in b.incidents
  }

  /** An attempt is recorded, and settles the check when it passed or was the last one allowed. */
  lemma AttemptExactly(b: Backend, n: nat, ok: bool, result: Json, o: string, now: int)
    requires ActionsConsistent(b)
    ensures Attempt(b, n, ok, result, o, now) ==
      if !CanTry(b, n) then b
      else
        var t := b.tasks[n];
        var c, inc := t.checks[|t.results|], b.incidents[t.incident];
        Backend(b.incidents[t.incident := inc.(observations :=
                  inc.observations + [Observation(o, c.tool, c.arguments, ok, result, Verification, now)])],
                b.actions, b.tasks[n := Tried(b, t, ok, result, o)])
  {
    if CanTry(b, n) {
      var t := b.tasks[n];
      MatchesExactly(result, t.checks[|t.results|].expected);
      TriesExactly(b, t.purpose, t.checks[|t.results|]);
    }
  }

  /** What the end of verification task `t` makes of an action's row: the verdict on the action it was for, and
      no decision left to make on an incident that recovered. */
  function Judged(t: Task, x: string, row: Action): Action
    requires t.Verify? && t.purpose.Recovery?
  {
    row.(approval := if Good(t) && row.incident == t.incident && row.approval.Pending? then Expired else row.approval,
         verdict := if t.purpose.action == Some(x) then (if Good(t) then Passed else Failed) else row.verdict)
  }

  /** The end of a recovery: it resolves its incident when everything passed and no stop is being judged, and
      stores what was found; the rows of actions are judged, and nothing else changes. */
  lemma EndingExactly(b: Backend, n: nat, i: string, now: int)
    requires ActionsConsistent(b) && Anchored(b) && Ends(b, Finishing(n), i)
    ensures var t, c := b.tasks[n], FinishVerification(b, n, now);
      && c.tasks == b.tasks - {n}
      && c.incidents == b.incidents[i := b.incidents[i].(
           status := if OfStop(b, t) then Open else if Good(t) then Resolved
                     else if Undecided(b, i, None) then WaitingForApproval else Open,
           resolvedAt := if Good(t) && !OfStop(b, t) then Some(now) else None,
           verification := Checked(t.results, t.since))]
      && c.actions.Keys == b.actions.Keys && forall x :: x in b.actions ==> c.actions[x] == Judged(t, x, b.actions[x])
  {
    PendingExactly(b, i, None);
    if b.tasks[n].purpose.action.Some? { StopsExactly(b.actions[b.tasks[n].purpose.action.value].tool); }
  }

  lemma StopsExactly(tool: string)
    requires IsWrite(tool)
    ensures IsStop(tool) <==> tool == "stop_container" || tool == "stop_service"
  {
    Policy.ByItselfExactly(tool);
    Policy.WritesAreSix(tool);
  }

  lemma EndingOnlySo(b: Backend, n: nat, now: int)
    requires Anchored(b) && forall i :: !Ends(b, Finishing(n), i)
    ensures FinishVerification(b, n, now) == b
  {
    if n in b.tasks && b.tasks[n].Verify? { assert !Ends(b, Finishing(n), b.tasks[n].incident); }
  }

  /** The reply to the agent's own dispatch is recorded, whatever it was, and the exact target is then inspected. */
  lemma ReportingExactly(b: Backend, n: nat, ok: bool, result: Json, o: string, now: int, a: string)
    requires ActionsConsistent(b) && ReportsBack(b, AutonomousSettling(n, ok, result, o), a)
    ensures var row, i := b.actions[a], b.actions[a].incident;
      var observations :=
        b.incidents[i].observations + [Observation(o, row.tool, row.arguments, ok, result, Remediation, now)];
      SettleAutonomous(b, n, ok, result, o, now) ==
        Backend(b.incidents[i := b.incidents[i].(observations := observations)], b.actions,
                b.tasks[n := Verify(ExactTarget(a, ok), i, b.tasks[n].exact, [], 0, |observations|)])
  {
  }

  lemma ReportingOnlySo(b: Backend, n: nat, ok: bool, result: Json, o: string, now: int)
    requires ActionsConsistent(b) && forall a :: !ReportsBack(b, AutonomousSettling(n, ok, result, o), a)
    ensures SettleAutonomous(b, n, ok, result, o, now) == b
  {
    if n in b.tasks && b.tasks[n].Dispatch? {
      assert !ReportsBack(b, AutonomousSettling(n, ok, result, o), b.tasks[n].action);
    }
  }

  /** The agent's action is judged by the inspection of its target, and by nothing else. */
  lemma JudgingExactly(b: Backend, n: nat)
    requires Anchored(b)
    ensures FinishAutonomous(b, n) ==
      if n in b.tasks && b.tasks[n].Verify? && b.tasks[n].purpose.ExactTarget?
        && EndsExact(b, AutonomousFinishing(n), b.tasks[n].purpose.claimed)
      then
        var a := b.tasks[n].purpose.claimed;
        Backend(b.incidents, b.actions[a := b.actions[a].(verdict := if Good(b.tasks[n]) then Passed else Failed)],
                b.tasks - {n})
      else b
  {
  }

  // --- What an agent writes ---

  /** The agent's claim, on this evidence, as the event has it. */
  ghost predicate ActsOn(settings: Settings, b: Backend, c: Backend, e: Event, now: int, evidence: seq<Observation>)
    requires e.AutonomousClaim? && e.i in b.incidents
  {
    && Claimable(settings, e.i, b.incidents[e.i], b.actions, e.tool, e.arguments, Cited(b.incidents[e.i], e.ids), now,
                 evidence)
    && ClaimedByItself(settings, b, c, e.i, e.a, e.tool, e.arguments, e.n, now, evidence)
  }

  lemma ActsExactly(settings: Settings, b: Backend, i: string, a: string, tool: string, arguments: Json,
                    ids: seq<string>, n: nat, now: int)
    ensures var e, c := AutonomousClaim(i, a, tool, arguments, ids, n),
                        ClaimAutonomous(settings, b, i, a, tool, arguments, ids, n, now);
      if ActsByItself(settings, b, e, now) then exists evidence :: ActsOn(settings, b, c, e, now, evidence) else c == b
  {
    var e, c := AutonomousClaim(i, a, tool, arguments, ids, n),
                ClaimAutonomous(settings, b, i, a, tool, arguments, ids, n, now);
    if c != b {
      var evidence := ClaimsOnlyClaimable(settings, b, i, a, tool, arguments, ids, n, now);
      assert ActsByItself(settings, b, e, now);
    }
    if ActsByItself(settings, b, e, now) {
      var evidence :|
        Claimable(settings, i, b.incidents[i], b.actions, tool, arguments, Cited(b.incidents[i], ids), now, evidence);
      ClaimsWhenClaimable(settings, b, i, a, tool, arguments, ids, n, now, evidence);
      assert ActsOn(settings, b, c, e, now, evidence);
    }
  }

  /** A successful piece of evidence among known ids makes a diagnosis; no other is saved. */
  lemma DiagnosingExactly(b: Backend, i: string, ids: seq<string>)
    ensures Diagnose(b, i, ids) ==
      if i in b.incidents && Evidenced(b.incidents[i], ids)
      then Backend(b.incidents[i := b.incidents[i].(status := Open, cited := ids)], b.actions, b.tasks)
      else b
  {
    if i in b.incidents { EvidencedExactly(b.incidents[i], ids); }
  }

  /** A restart loses every task, interrupts exactly the incidents that were being worked on, and changes no
      other column of any row. */
  lemma RestartingExactly(b: Backend)
    ensures var c := Restart(b);
      && c.tasks == map[] && c.actions == b.actions && c.incidents.Keys == b.incidents.Keys
      && forall i :: i in b.incidents ==>
           c.incidents[i] == if b.incidents[i].status.Investigating? || b.incidents[i].status.Verifying?
                             then b.incidents[i].(status := Interrupted) else b.incidents[i]
  {
  }
}
