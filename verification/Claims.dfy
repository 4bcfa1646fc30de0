/** What a claim needs: exactly when an operator's approval or the autonomous policy claims an action, and
    what had held at every approval of every run. */
module Claims {
  import opened JsonValues
  import opened Topology
  import opened RecoveryChecks
  import opened Records
  import opened Tools
  import opened Autonomy
  import opened Incidents
  import opened IncidentInvariants
  import opened IncidentRuns
  import Policy = AutonomyPolicy

  /** The ids are of observations of the incident, and one of them succeeded. */
  ghost predicate Evidenced(inc: Incident, ids: seq<string>) {
    && ids != []
    && (forall id :: id in ids ==> exists o :: o in inc.observations && o.id == id)
    && (exists o :: o in inc.observations && o.id in ids && o.ok)
  }

  /** Recovery, from an action if there is one, can be verified, by reads that the registry offers. */
  ghost predicate Checkable(settings: Settings, service: string, action: Option<Target>) {
    && Verifiable(settings.topology, service, action)
    && AllReads(settings, VerificationChecks(settings.topology, service, action))
  }

  /** There are checks, and all of them are reads that the registry offers. */
  ghost predicate AllReads(settings: Settings, checks: Outcome<seq<Check>>) {
    checks.Ok? && forall c :: c in checks.value ==>
      !IsWrite(c.tool) && c.tool in READ_TOOLS && Offers(settings, c.tool, c.arguments, ReadOnly)
  }

  /** Everything an approval of the action needs of its incident, of the settings and of the registry. */
  ghost predicate Approvable(settings: Settings, inc: Incident, a: Action) {
    && settings.writes && inc.status.WaitingForApproval? && Evidenced(inc, inc.cited)
    && IsWrite(a.tool) && Offers(settings, a.tool, a.arguments, LowRiskWrite)
    && Checkable(settings, inc.service, Some(TargetOf(a)))
  }

  /** A check covers a write's target when it inspects that very container or unit. */
  lemma CoversExactly(c: Check, tool: string, arguments: Json)
    requires IsWrite(tool)
    ensures CoversTarget(c, Target(tool, arguments)) <==>
      && c.tool == (if Policy.OnContainer(tool) then "docker_inspect" else "service_status")
      && Same(GetOrNull(c.arguments, Policy.Kind(tool)), GetOrNull(arguments, Policy.Kind(tool)))
  {
    Policy.KindsAndKeys(tool);
  }

  lemma EvidencedExactly(inc: Incident, ids: seq<string>)
    ensures ValidEvidence(inc, ids) <==> Evidenced(inc, ids)
  {
  }

  lemma CheckableExactly(settings: Settings, service: string, action: Option<Target>)
    ensures Runnable(settings, VerificationChecks(settings.topology, service, action))
      <==> Checkable(settings, service, action)
  {
    VerifiableExactly(settings.topology, service, action);
    RunnableExactly(settings, VerificationChecks(settings.topology, service, action));
  }

  lemma RunnableExactly(settings: Settings, checks: Outcome<seq<Check>>)
    ensures Runnable(settings, checks) <==> AllReads(settings, checks)
  {
    if checks.Ok? {
      forall c | c in checks.value
        ensures Permitted(settings, c.tool, c.arguments, false)
          <==> !IsWrite(c.tool) && c.tool in READ_TOOLS && Offers(settings, c.tool, c.arguments, ReadOnly)
      {
        PermittedExactly(settings, c.tool, c.arguments, false);
      }
    }
  }

  lemma MayClaimExactly(settings: Settings, inc: Incident, a: Action)
    requires IsWrite(a.tool)
    ensures settings.writes && MayClaim(settings, inc, a) <==> Approvable(settings, inc, a)
  {
    EvidencedExactly(inc, inc.cited);
    PermittedExactly(settings, a.tool, a.arguments, true);
    CheckableExactly(settings, inc.service, Some(TargetOf(a)));
  }

  /** The state after action `a` was claimed by an approval and task `n` has its dispatch. */
  function Claimed(b: Backend, a: string, n: nat, now: int): Backend
    requires a in b.actions && b.actions[a].incident in b.incidents
  {
    var i := b.actions[a].incident;
    Backend(b.incidents[i := b.incidents[i].(status := Verifying)],
            b.actions[a := b.actions[a].(approval := Approved, executed := true, claimedAt := now)],
            b.tasks[n := Dispatch(a, false, [])])
  }

  /** An approval claims a pending action, and installs its unsent dispatch, exactly when the action has
      not expired and is approvable, and the task number is free; it approves in no other way. */
  lemma ApprovesExactly(settings: Settings, b: Backend, a: string, n: nat, now: int)
    requires ActionsConsistent(b) && a in b.actions && b.actions[a].approval.Pending?
    ensures var row := b.actions[a];
      var claims := now < row.expires && n !in b.tasks && Approvable(settings, b.incidents[row.incident], row);
      if claims then Approve(settings, b, a, n, now) == Claimed(b, a, n, now)
      else
        && a in Approve(settings, b, a, n, now).actions
        && !Approve(settings, b, a, n, now).actions[a].approval.Approved?
  {
    MayClaimExactly(settings, b.incidents[b.actions[a].incident], b.actions[a]);
    ApproveAtTheGate(settings, b, a, n, now);
  }

  lemma ApproveAtTheGate(settings: Settings, b: Backend, a: string, n: nat, now: int)
    requires ActionsConsistent(b) && a in b.actions && b.actions[a].approval.Pending?
    ensures var row := b.actions[a];
      if settings.writes && now < row.expires && n !in b.tasks && MayClaim(settings, b.incidents[row.incident], row)
      then Approve(settings, b, a, n, now) == Claimed(b, a, n, now)
      else
        && a in Approve(settings, b, a, n, now).actions
        && !Approve(settings, b, a, n, now).actions[a].approval.Approved?
  {
  }

  // --- Nothing but an approval approves ---

  /** No pending action is approved by the step. */
  predicate ApprovesNothing(b: Backend, c: Backend) {
    forall a | a in b.actions && b.actions[a].approval.Pending? && a in c.actions :: !c.actions[a].approval.Approved?
  }

  lemma AgentApprovesNothing(settings: Settings, b: Backend, e: Event, now: int)
    requires e.Creation? || e.Claim? || e.Start? || e.Observing? || e.Diagnosis? || e.Proposal? || e.Conclusion?
      || e.Failure?
    ensures ApprovesNothing(b, Apply(settings, b, e, now))
  {
  }

  lemma OperatorApprovesNothing(settings: Settings, b: Backend, e: Event, now: int)
    requires e.Settling? || e.Rejecting? || e.Checking?
    ensures ApprovesNothing(b, Apply(settings, b, e, now))
  {
  }

  lemma VerificationApprovesNothing(settings: Settings, b: Backend, e: Event, now: int)
    requires e.Attempting? || e.Finishing? || e.AutonomousFinishing?
    ensures ApprovesNothing(b, Apply(settings, b, e, now))
  {
  }

  lemma OthersApproveNothing(settings: Settings, b: Backend, e: Event, now: int)
    requires e.AutonomousClaim? || e.AutonomousSettling? || e.Abandoning? || e.Restarting? || e.Sending?
    ensures ApprovesNothing(b, Apply(settings, b, e, now))
  {
  }

  lemma ApprovalApprovesOne(settings: Settings, b: Backend, a: string, n: nat, now: int, x: string)
    requires x in b.actions && x != a
    ensures x in Approve(settings, b, a, n, now).actions && Approve(settings, b, a, n, now).actions[x] == b.actions[x]
  {
  }

  lemma OnlyApprovalApproves(settings: Settings, b: Backend, e: Event, now: int, a: string)
    requires a in b.actions && b.actions[a].approval.Pending?
    requires a in Apply(settings, b, e, now).actions && Apply(settings, b, e, now).actions[a].approval.Approved?
    ensures e.Approving? && e.a == a
  {
    if e.Approving? {
      if e.a != a { ApprovalApprovesOne(settings, b, e.a, e.n, now, a); }
    } else if e.Settling? || e.Rejecting? || e.Checking? {
      OperatorApprovesNothing(settings, b, e, now);
    } else if e.Attempting? || e.Finishing? || e.AutonomousFinishing? {
      VerificationApprovesNothing(settings, b, e, now);
    } else if e.AutonomousClaim? || e.AutonomousSettling? || e.Abandoning? || e.Restarting? || e.Sending? {
      OthersApproveNothing(settings, b, e, now);
    } else {
      AgentApprovesNothing(settings, b, e, now);
    }
  }

  /** At every step of every run at which a pending action becomes approved: an operator approved it before
      it expired, writes were enabled, its incident was waiting on a diagnosis with successful evidence, the
      registry offered the write and every check that is to verify it, and a reachable health check covers
      its target; and the step claims the action and installs its one dispatch, and does nothing else. */
  lemma ApprovalsAreEarned(settings: Settings, events: seq<(Event, int)>, k: nat, a: string)
    requires k < |events|
    requires a in Replay(settings, events[..k]).actions && Replay(settings, events[..k]).actions[a].approval.Pending?
    requires a in Replay(settings, events[..k + 1]).actions
    requires Replay(settings, events[..k + 1]).actions[a].approval.Approved?
    ensures var b, e := Replay(settings, events[..k]), events[k].0;
      && e.Approving? && e.a == a && b.actions[a].incident in b.incidents && events[k].1 < b.actions[a].expires
      && Approvable(settings, b.incidents[b.actions[a].incident], b.actions[a])
      && e.n !in b.tasks && Replay(settings, events[..k + 1]) == Claimed(b, a, e.n, events[k].1)
  {
    var b, e, now := Replay(settings, events[..k]), events[k].0, events[k].1;
    PrefixEvolves(settings, events, k);
    ReplayStep(settings, events, k);
    EarnedStep(settings, b, e, now, a);
  }

  lemma EarnedStep(settings: Settings, b: Backend, e: Event, now: int, a: string)
    requires ActionsConsistent(b) && a in b.actions && b.actions[a].approval.Pending?
    requires a in Apply(settings, b, e, now).actions && Apply(settings, b, e, now).actions[a].approval.Approved?
    ensures e.Approving? && e.a == a && now < b.actions[a].expires && e.n !in b.tasks
    ensures Approvable(settings, b.incidents[b.actions[a].incident], b.actions[a])
    ensures Apply(settings, b, e, now) == Claimed(b, a, e.n, now)
  {
    OnlyApprovalApproves(settings, b, e, now, a);
    ApprovesExactly(settings, b, a, e.n, now);
  }

  // --- Autonomous claims ---

  /** A check of exactly this target. */
  predicate OfTarget(c: Check, tool: string, target: Json) {
    && c.tool == (if Policy.OnContainer(tool) then "docker_inspect" else "service_status")
    && Same(c.arguments, JObj([Field(Policy.Kind(tool), target)]))
  }

  /** Checks of the exact target are among those that verify the action, and they are reads that the
      registry offers. */
  ghost predicate Inspectable(settings: Settings, service: string, tool: string, arguments: Json) {
    var checks := VerificationChecks(settings.topology, service, Some(Target(tool, arguments)));
    var target := GetOrNull(arguments, Policy.Kind(tool));
    && checks.Ok? && (exists c :: c in checks.value && OfTarget(c, tool, target))
    && forall c :: c in checks.value && OfTarget(c, tool, target) ==>
         !IsWrite(c.tool) && c.tool in READ_TOOLS && Offers(settings, c.tool, c.arguments, ReadOnly)
  }

  /** The checks that a dispatch carries are those of its exact target. */
  ghost predicate OnlyOfTarget(exact: seq<Check>, settings: Settings, service: string, tool: string, arguments: Json) {
    var checks := VerificationChecks(settings.topology, service, Some(Target(tool, arguments)));
    && checks.Ok?
    && forall c :: c in exact <==> c in checks.value && OfTarget(c, tool, GetOrNull(arguments, Policy.Kind(tool)))
  }

  lemma ExactlyTargetsExactly(c: Check, a: Action)
    requires a.tool in Policy.BY_ITSELF
    ensures ExactlyTargets(c, a) <==> OfTarget(c, a.tool, GetOrNull(a.arguments, Policy.Kind(a.tool)))
  {
    Policy.KindsAndKeys(a.tool);
  }

  lemma KeptExactly(settings: Settings, service: string, a: Action)
    requires a.tool in Policy.BY_ITSELF
    requires VerificationChecks(settings.topology, service, Some(TargetOf(a))).Ok?
    ensures var exact := KeepExact(VerificationChecks(settings.topology, service, Some(TargetOf(a))).value, a);
      && OnlyOfTarget(exact, settings, service, a.tool, a.arguments)
      && (exact != [] && Runnable(settings, Ok(exact)) <==> Inspectable(settings, service, a.tool, a.arguments))
  {
    var checks := VerificationChecks(settings.topology, service, Some(TargetOf(a))).value;
    var exact := KeepExact(checks, a);
    forall c: Check
      ensures c in exact <==> c in checks && OfTarget(c, a.tool, GetOrNull(a.arguments, Policy.Kind(a.tool)))
      ensures Permitted(settings, c.tool, c.arguments, false)
        <==> !IsWrite(c.tool) && c.tool in READ_TOOLS && Offers(settings, c.tool, c.arguments, ReadOnly)
    {
      ExactlyTargetsExactly(c, a);
      PermittedExactly(settings, c.tool, c.arguments, false);
    }
    if exact != [] { assert exact[0] in exact; }
  }

  /** The agent may act by itself on this evidence, and what it does can be inspected. */
  ghost predicate Claimable(settings: Settings, i: string, inc: Incident, actions: map<string, Action>, tool: string,
                            arguments: Json, ids: seq<string>, now: int, evidence: seq<Observation>)
  {
    && Policy.Authorizable(settings, i, inc, actions, tool, arguments, ids, now, evidence)
    && Inspectable(settings, inc.service, tool, arguments)
  }

  /** Without ids, all observations of the incident are cited. */
  function Cited(inc: Incident, ids: seq<string>): seq<string> {
    if ids == [] then Ids(inc.observations) else ids
  }

  lemma DecisionFollows(settings: Settings, i: string, inc: Incident, actions: map<string, Action>, tool: string,
                        arguments: Json, ids: seq<string>, now: int, evidence: seq<Observation>)
    requires Authorize(settings, i, inc, actions, tool, arguments, Cited(inc, ids), now) == Some(evidence)
    ensures var checks := VerificationChecks(settings.topology, inc.service, Some(Target(tool, arguments)));
      var y := Action(i, tool, arguments, false, now, AutoAuthorized, true, now, Ids(evidence), NotRun);
      Decide(settings, i, inc, actions, tool, arguments, ids, now)
      == if checks.Ok? && KeepExact(checks.value, y) != [] && Runnable(settings, Ok(KeepExact(checks.value, y)))
         then Some((y, KeepExact(checks.value, y))) else None
  {
  }

  /** What the decision to act comes to on authorized evidence. */
  lemma DecidesExactly(settings: Settings, i: string, inc: Incident, actions: map<string, Action>, tool: string,
                       arguments: Json, ids: seq<string>, now: int, evidence: seq<Observation>)
    requires Policy.Authorizable(settings, i, inc, actions, tool, arguments, Cited(inc, ids), now, evidence)
    ensures var decision := Decide(settings, i, inc, actions, tool, arguments, ids, now);
      && (decision.Some? <==> Inspectable(settings, inc.service, tool, arguments))
      && (decision.Some? ==>
          && decision.value.0 == Action(i, tool, arguments, false, now, AutoAuthorized, true, now, Ids(evidence),
             NotRun)
          && OnlyOfTarget(decision.value.1, settings, inc.service, tool, arguments))
  {
    Policy.AuthorizeExactly(settings, i, inc, actions, tool, arguments, Cited(inc, ids), now, evidence);
    DecisionFollows(settings, i, inc, actions, tool, arguments, ids, now, evidence);
    var y := Action(i, tool, arguments, false, now, AutoAuthorized, true, now, Ids(evidence), NotRun);
    if VerificationChecks(settings.topology, inc.service, Some(Target(tool, arguments))).Ok? {
      assert TargetOf(y) == Target(tool, arguments);
      KeptExactly(settings, inc.service, y);
    }
  }

  lemma DecisionHasEvidence(settings: Settings, i: string, inc: Incident, actions: map<string, Action>, tool: string,
                            arguments: Json, ids: seq<string>, now: int) returns (evidence: seq<Observation>)
    requires Decide(settings, i, inc, actions, tool, arguments, ids, now).Some?
    ensures Policy.Authorizable(settings, i, inc, actions, tool, arguments, Cited(inc, ids), now, evidence)
  {
    evidence := Authorize(settings, i, inc, actions, tool, arguments, Cited(inc, ids), now).value;
    Policy.AuthorizeExactly(settings, i, inc, actions, tool, arguments, Cited(inc, ids), now, evidence);
  }

  /** The state after the agent claimed action `a` on this evidence. */
  ghost predicate ClaimedByItself(settings: Settings, b: Backend, c: Backend, i: string, a: string, tool: string,
                                  arguments: Json, n: nat, now: int, evidence: seq<Observation>)
    requires i in b.incidents
  {
    && c.incidents == b.incidents
    && c.actions == b.actions[a :=
       Action(i, tool, arguments, false, now, AutoAuthorized, true, now, Ids(evidence), NotRun)]
    && n in c.tasks && c.tasks[n].Dispatch? && c.tasks == b.tasks[n := Dispatch(a, false, c.tasks[n].exact)]
    && OnlyOfTarget(c.tasks[n].exact, settings, b.incidents[i].service, tool, arguments)
  }

  lemma ClaimFollows(settings: Settings, b: Backend, i: string, a: string, tool: string, arguments: Json,
                     ids: seq<string>, n: nat, now: int)
    requires i in b.incidents && a !in b.actions && n !in b.tasks
    ensures var decision := Decide(settings, i, b.incidents[i], b.actions, tool, arguments, ids, now);
      ClaimAutonomous(settings, b, i, a, tool, arguments, ids, n, now)
      == if decision.None? then b
         else b.(actions := b.actions[a := decision.value.0],
           tasks := b.tasks[n := Dispatch(a, false, decision.value.1)])
  {
  }

  /** When the policy authorizes the action and its target can be inspected, deciding to act claims it with
      the fresh cited evidence and installs its dispatch. */
  lemma ClaimsWhenClaimable(settings: Settings, b: Backend, i: string, a: string, tool: string, arguments: Json,
                            ids: seq<string>, n: nat, now: int, evidence: seq<Observation>)
    requires i in b.incidents && a !in b.actions && n !in b.tasks
    requires Claimable(settings, i, b.incidents[i], b.actions, tool, arguments, Cited(b.incidents[i], ids), now,
      evidence)
    ensures ClaimedByItself(settings, b, ClaimAutonomous(settings, b, i, a, tool, arguments, ids, n, now),
                            i, a, tool, arguments, n, now, evidence)
  {
    DecidesExactly(settings, i, b.incidents[i], b.actions, tool, arguments, ids, now, evidence);
    ClaimFollows(settings, b, i, a, tool, arguments, ids, n, now);
  }

  /** And nothing else ever claims: a decision that changes anything was claimable. */
  lemma ClaimsOnlyClaimable(settings: Settings, b: Backend, i: string, a: string, tool: string, arguments: Json,
                            ids: seq<string>, n: nat, now: int) returns (evidence: seq<Observation>)
    requires ClaimAutonomous(settings, b, i, a, tool, arguments, ids, n, now) != b
    ensures i in b.incidents && a !in b.actions && n !in b.tasks
    ensures Claimable(settings, i, b.incidents[i], b.actions, tool, arguments, Cited(b.incidents[i], ids), now,
      evidence)
  {
    evidence := DecisionHasEvidence(settings, i, b.incidents[i], b.actions, tool, arguments, ids, now);
    DecidesExactly(settings, i, b.incidents[i], b.actions, tool, arguments, ids, now, evidence);
  }
}
