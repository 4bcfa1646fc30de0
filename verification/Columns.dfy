/** Column by column, exactly which events of the backend write it, and what: the statuses of incidents, the
    decisions on actions and their verdicts, and the rows that appear. */
module Columns {
  import opened JsonValues
  import opened RecoveryChecks
  import opened Records
  import opened Incidents
  import opened IncidentInvariants
  import opened Claims
  import opened Outcomes
  import Runs = IncidentRuns

  // --- The status of an incident ---

  /** A decision that leaves the incident with one action less to decide on. */
  ghost predicate Drops(settings: Settings, b: Backend, e: Event, now: int, a: string) {
    || Lapses(settings, b, e, now, a)
    || (Replies(b, e, a) && !e.ok)
    || (Refuses(b, e, a) && b.actions[a].incident in b.incidents
        && b.incidents[b.actions[a].incident].status !in {Verifying, Investigating})
  }

  ghost predicate Opens(settings: Settings, b: Backend, e: Event, now: int, i: string)
    requires i in b.incidents
  {
    || (e.Diagnosis? && e.i == i && Evidenced(b.incidents[i], e.ids))
    || e == Conclusion(i, false)
    || (Concerns(b, e, i) && Drops(settings, b, e, now, About(b, e)) && !Undecided(b, i, Some(About(b, e))))
    || (Blocks(settings, b, e) && e.i == i)
    || (Ends(b, e, i) && (OfStop(b, b.tasks[e.n]) || (!Good(b.tasks[e.n]) && !Undecided(b, i, None))))
  }

  predicate Investigates(b: Backend, e: Event, i: string)
    requires i in b.incidents
  {
    || (e == Claim(i) && b.incidents[i].status in {Open, Interrupted, Escalated})
    || (e == Start(i) && b.incidents[i].status in {Open, Interrupted, Escalated, Investigating})
  }

  ghost predicate Waits(settings: Settings, b: Backend, e: Event, i: string) {
    || (Asks(settings, b, e) && e.i == i)
    || (Concerns(b, e, i) && Replies(b, e, About(b, e)) && !e.ok && Undecided(b, i, Some(About(b, e))))
    || (Ends(b, e, i) && !OfStop(b, b.tasks[e.n]) && !Good(b.tasks[e.n]) && Undecided(b, i, None))
  }

  ghost predicate Verifies(settings: Settings, b: Backend, e: Event, now: int, i: string) {
    || (Concerns(b, e, i) && Approves(settings, b, e, now, About(b, e)))
    || (BeginsToVerify(settings, b, e) && e.i == i)
  }

  predicate Resolves(b: Backend, e: Event, i: string) {
    Ends(b, e, i) && !OfStop(b, b.tasks[e.n]) && Good(b.tasks[e.n])
  }

  predicate Interrupts(b: Backend, e: Event, i: string)
    requires i in b.incidents
  {
    e == Failure(i) || (e.Restarting? && b.incidents[i].status in {Investigating, Verifying})
  }

  /** The incident's status after the event is the one the event gives it, or what it was. */
  ghost function StatusAfter(settings: Settings, b: Backend, e: Event, now: int, i: string): Status
    requires i in b.incidents
  {
    if Resolves(b, e, i) then Resolved
    else if Waits(settings, b, e, i) then WaitingForApproval
    else if Verifies(settings, b, e, now, i) then Verifying
    else if Opens(settings, b, e, now, i) then Open
    else if Investigates(b, e, i) then Investigating
    else if e == Conclusion(i, true) then Escalated
    else if Interrupts(b, e, i) then Interrupted
    else b.incidents[i].status
  }

  ghost predicate StatusRight(settings: Settings, b: Backend, c: Backend, e: Event, now: int, i: string)
    requires i in b.incidents
  {
    i in c.incidents && c.incidents[i].status == StatusAfter(settings, b, e, now, i)
  }

  lemma CreateStatus(settings: Settings, b: Backend, i: string, now: int, j: string, service: string)
    requires i in b.incidents
    ensures StatusRight(settings, b, Create(b, j, service), Creation(j, service), now, i)
  {
  }

  lemma ClaimStatus(settings: Settings, b: Backend, i: string, now: int, j: string)
    requires i in b.incidents
    ensures StatusRight(settings, b, ClaimInvestigation(b, j), Claim(j), now, i)
  {
  }

  lemma StartStatus(settings: Settings, b: Backend, i: string, now: int, j: string)
    requires i in b.incidents
    ensures StatusRight(settings, b, StartInvestigation(b, j), Start(j), now, i)
  {
  }

  lemma ConcludeStatus(settings: Settings, b: Backend, i: string, now: int, j: string, escalated: bool)
    requires i in b.incidents
    ensures StatusRight(settings, b, Conclude(b, j, escalated), Conclusion(j, escalated), now, i)
  {
  }

  lemma FailStatus(settings: Settings, b: Backend, i: string, now: int, j: string)
    requires i in b.incidents
    ensures StatusRight(settings, b, Fail(b, j), Failure(j), now, i)
  {
  }

  lemma DiagnosisStatus(settings: Settings, b: Backend, i: string, now: int, j: string, ids: seq<string>)
    requires i in b.incidents
    ensures StatusRight(settings, b, Diagnose(b, j, ids), Diagnosis(j, ids), now, i)
  {
    if j in b.incidents { EvidencedExactly(b.incidents[j], ids); }
  }

  lemma RestartStatus(settings: Settings, b: Backend, i: string, now: int)
    requires i in b.incidents
    ensures StatusRight(settings, b, Restart(b), Restarting, now, i)
  {
  }

  /** Events that leave every status alone. */
  predicate TouchesNoStatus(e: Event) {
    e.Observing? || e.Attempting? || e.AutonomousClaim? || e.AutonomousSettling? || e.AutonomousFinishing?
    || e.Abandoning? || e.Sending?
  }

  lemma UntouchedStatus(settings: Settings, b: Backend, e: Event, now: int, i: string)
    requires i in b.incidents && TouchesNoStatus(e)
    ensures StatusAfter(settings, b, e, now, i) == b.incidents[i].status
  {
    if e.Observing? || e.Attempting? || e.AutonomousClaim? { UntouchedByAgent(settings, b, e, now, i); }
    else { UntouchedByRest(settings, b, e, now, i); }
  }

  lemma UntouchedByAgent(settings: Settings, b: Backend, e: Event, now: int, i: string)
    requires i in b.incidents && (e.Observing? || e.Attempting? || e.AutonomousClaim?)
    ensures StatusAfter(settings, b, e, now, i) == b.incidents[i].status
  {
  }

  lemma UntouchedByRest(settings: Settings, b: Backend, e: Event, now: int, i: string)
    requires i in b.incidents
    requires e.AutonomousSettling? || e.AutonomousFinishing? || e.Abandoning? || e.Sending?
    ensures StatusAfter(settings, b, e, now, i) == b.incidents[i].status
  {
  }

  lemma ProposalGives(settings: Settings, b: Backend, e: Event, now: int, i: string)
    requires i in b.incidents && e.Proposal?
    ensures StatusAfter(settings, b, e, now, i)
      == if Asks(settings, b, e) && e.i == i then WaitingForApproval else b.incidents[i].status
  {
  }

  lemma ProposalStatus(settings: Settings, b: Backend, i: string, now: int, j: string, a: string, tool: string,
                       arguments: Json)
    requires i in b.incidents
    ensures StatusRight(settings, b, Propose(settings, b, j, a, tool, arguments, now),
      Proposal(j, a, tool, arguments), now, i)
  {
    AsksExactly(settings, b, j, a, tool, arguments, now);
    ProposalGives(settings, b, Proposal(j, a, tool, arguments), now, i);
  }

  lemma ApprovalGives(settings: Settings, b: Backend, e: Event, now: int, i: string)
    requires ActionsConsistent(b) && i in b.incidents && e.Approving?
    ensures StatusAfter(settings, b, e, now, i) ==
      if Approves(settings, b, e, now, e.a) && b.actions[e.a].incident == i then Verifying
      else if Lapses(settings, b, e, now, e.a) && b.actions[e.a].incident == i && !Undecided(b, i, Some(e.a)) then Open
      else b.incidents[i].status
  {
  }

  lemma ApprovalStatus(settings: Settings, b: Backend, i: string, now: int, a: string, n: nat)
    requires ActionsConsistent(b) && i in b.incidents
    ensures StatusRight(settings, b, Approve(settings, b, a, n, now), Approving(a, n), now, i)
  {
    ApprovingExactly(settings, b, a, n, now);
    ApprovalGives(settings, b, Approving(a, n), now, i);
  }

  lemma SettlingGives(settings: Settings, b: Backend, e: Event, now: int, i: string)
    requires ActionsConsistent(b) && i in b.incidents && e.Settling?
    ensures StatusAfter(settings, b, e, now, i) ==
      if Replies(b, e, About(b, e)) && !e.ok && b.actions[About(b, e)].incident == i
      then if Undecided(b, i, Some(About(b, e))) then WaitingForApproval else Open
      else b.incidents[i].status
  {
  }

  lemma SettlingStatus(settings: Settings, b: Backend, i: string, now: int, n: nat, ok: bool)
    requires ActionsConsistent(b) && i in b.incidents
    ensures StatusRight(settings, b, Settle(b, n, ok), Settling(n, ok), now, i)
  {
    SettlingGives(settings, b, Settling(n, ok), now, i);
    var a := About(b, Settling(n, ok));
    if Replies(b, Settling(n, ok), a) { SettlingExactly(b, n, ok, a); } else { SettlingOnlySo(b, n, ok); }
  }

  lemma RejectionGives(settings: Settings, b: Backend, e: Event, now: int, i: string)
    requires ActionsConsistent(b) && i in b.incidents && e.Rejecting?
    ensures StatusAfter(settings, b, e, now, i) ==
      if PendingAt(b, e.a) && b.actions[e.a].incident == i && b.incidents[i].status !in {Verifying, Investigating}
        && !Undecided(b, i, Some(e.a))
      then Open else b.incidents[i].status
  {
  }

  lemma RejectionStatus(settings: Settings, b: Backend, i: string, now: int, a: string)
    requires ActionsConsistent(b) && i in b.incidents
    ensures StatusRight(settings, b, Reject(b, a), Rejecting(a), now, i)
  {
    RejectionGives(settings, b, Rejecting(a), now, i);
    RejectingExactly(b, a);
  }

  lemma CheckingGives(settings: Settings, b: Backend, e: Event, now: int, i: string)
    requires i in b.incidents && e.Checking?
    ensures StatusAfter(settings, b, e, now, i) ==
      if BeginsToVerify(settings, b, e) && e.i == i then Verifying
      else if Blocks(settings, b, e) && e.i == i then Open
      else b.incidents[i].status
  {
  }

  lemma CheckingStatus(settings: Settings, b: Backend, i: string, now: int, j: string, action: Option<string>, n: nat)
    requires i in b.incidents
    ensures StatusRight(settings, b, BeginVerification(settings, b, j, action, n), Checking(j, action, n), now, i)
  {
    CheckingGives(settings, b, Checking(j, action, n), now, i);
    BeginningExactly(settings, b, j, action, n);
  }

  lemma FinishingGives(settings: Settings, b: Backend, e: Event, now: int, i: string)
    requires i in b.incidents && e.Finishing?
    ensures StatusAfter(settings, b, e, now, i) ==
      if !Ends(b, e, i) then b.incidents[i].status
      else if OfStop(b, b.tasks[e.n]) then Open
      else if Good(b.tasks[e.n]) then Resolved
      else if Undecided(b, i, None) then WaitingForApproval else Open
  {
  }

  lemma FinishingStatus(settings: Settings, b: Backend, i: string, now: int, n: nat)
    requires ActionsConsistent(b) && Anchored(b) && i in b.incidents
    ensures StatusRight(settings, b, FinishVerification(b, n, now), Finishing(n), now, i)
  {
    FinishingGives(settings, b, Finishing(n), now, i);
    if j :| Ends(b, Finishing(n), j) { EndingExactly(b, n, j, now); } else { EndingOnlySo(b, n, now); }
  }

  lemma UntouchedKept(settings: Settings, b: Backend, e: Event, now: int, i: string)
    requires i in b.incidents && TouchesNoStatus(e)
    ensures i in Apply(settings, b, e, now).incidents
    ensures Apply(settings, b, e, now).incidents[i].status == b.incidents[i].status
  {
  }

  lemma AgentStatuses(settings: Settings, b: Backend, e: Event, now: int, i: string)
    requires i in b.incidents && (e.Creation? || e.Claim? || e.Start? || e.Conclusion? || e.Failure?)
    ensures StatusRight(settings, b, Apply(settings, b, e, now), e, now, i)
  {
    match e
    case Creation(j, service) => CreateStatus(settings, b, i, now, j, service);
    case Claim(j) => ClaimStatus(settings, b, i, now, j);
    case Start(j) => StartStatus(settings, b, i, now, j);
    case Conclusion(j, escalated) => ConcludeStatus(settings, b, i, now, j, escalated);
    case Failure(j) => FailStatus(settings, b, i, now, j);
  }

  lemma DiagnosisStatuses(settings: Settings, b: Backend, e: Event, now: int, i: string)
    requires i in b.incidents && (e.Diagnosis? || e.Proposal? || e.Restarting?)
    ensures StatusRight(settings, b, Apply(settings, b, e, now), e, now, i)
  {
    match e
    case Diagnosis(j, ids) => DiagnosisStatus(settings, b, i, now, j, ids);
    case Proposal(j, a, tool, arguments) => ProposalStatus(settings, b, i, now, j, a, tool, arguments);
    case Restarting => RestartStatus(settings, b, i, now);
  }

  lemma OperatorStatuses(settings: Settings, b: Backend, e: Event, now: int, i: string)
    requires ActionsConsistent(b) && i in b.incidents && (e.Approving? || e.Settling? || e.Rejecting?)
    ensures StatusRight(settings, b, Apply(settings, b, e, now), e, now, i)
  {
    match e
    case Approving(a, n) => ApprovalStatus(settings, b, i, now, a, n);
    case Settling(n, ok) => SettlingStatus(settings, b, i, now, n, ok);
    case Rejecting(a) => RejectionStatus(settings, b, i, now, a);
  }

  lemma VerificationStatuses(settings: Settings, b: Backend, e: Event, now: int, i: string)
    requires ActionsConsistent(b) && Anchored(b) && i in b.incidents && (e.Checking? || e.Finishing?)
    ensures StatusRight(settings, b, Apply(settings, b, e, now), e, now, i)
  {
    match e
    case Checking(j, action, n) => CheckingStatus(settings, b, i, now, j, action, n);
    case Finishing(n) => FinishingStatus(settings, b, i, now, n);
  }

  lemma StatusExactly(settings: Settings, b: Backend, e: Event, now: int, i: string)
    requires ActionsConsistent(b) && Anchored(b) && i in b.incidents
    ensures StatusRight(settings, b, Apply(settings, b, e, now), e, now, i)
  {
    if e.Approving? || e.Settling? || e.Rejecting? {
      OperatorStatuses(settings, b, e, now, i);
    } else if e.Checking? || e.Finishing? {
      VerificationStatuses(settings, b, e, now, i);
    } else if e.Diagnosis? || e.Proposal? || e.Restarting? {
      DiagnosisStatuses(settings, b, e, now, i);
    } else if TouchesNoStatus(e) {
      UntouchedStatus(settings, b, e, now, i);
      UntouchedKept(settings, b, e, now, i);
    } else {
      AgentStatuses(settings, b, e, now, i);
    }
  }

  // --- The rows of actions ---

  /** Recovery of the action's incident leaves nothing to decide. */
  predicate Outdates(b: Backend, e: Event, a: string) {
    PendingAt(b, a) && Ends(b, e, b.actions[a].incident) && Good(b.tasks[e.n])
  }

  /** The verification that ends judges this action. */
  predicate Judges(b: Backend, e: Event, a: string) {
    || EndsExact(b, e, a)
    || (e.Finishing? && e.n in b.tasks && b.tasks[e.n].Verify? && Ends(b, e, b.tasks[e.n].incident)
        && b.tasks[e.n].purpose.action == Some(a))
  }

  ghost function ApprovalAfter(settings: Settings, b: Backend, e: Event, now: int, a: string): Approval
    requires a in b.actions
  {
    if Approves(settings, b, e, now, a) then Approved
    else if Lapses(settings, b, e, now, a) || Outdates(b, e, a) then Expired
    else if Refuses(b, e, a) then Rejected
    else b.actions[a].approval
  }

  ghost function VerdictAfter(settings: Settings, b: Backend, e: Event, a: string): Verdict
    requires a in b.actions
  {
    if Judges(b, e, a) then (if Good(b.tasks[e.n]) then Passed else Failed)
    else if Replies(b, e, a) && !e.ok then Failed
    else if Blocks(settings, b, e) && e.action == Some(a) then Blocked
    else b.actions[a].verdict
  }

  /** The whole row after the event: an approval also marks it executed, at its time; nothing else moves. */
  ghost predicate ActionRight(settings: Settings, b: Backend, c: Backend, e: Event, now: int, a: string)
    requires a in b.actions
  {
    var approved := Approves(settings, b, e, now, a);
    && a in c.actions
    && c.actions[a] == b.actions[a].(
         approval := ApprovalAfter(settings, b, e, now, a),
         executed := approved || b.actions[a].executed,
         claimedAt := if approved then now else b.actions[a].claimedAt,
         verdict := VerdictAfter(settings, b, e, a))
  }

  /** Events that leave every row of an action alone, whatever rows they add. */
  predicate TouchesNoAction(e: Event) {
    !(e.Approving? || e.Settling? || e.Rejecting? || e.Checking? || e.Finishing? || e.AutonomousFinishing?)
  }

  lemma UntouchedAction(settings: Settings, b: Backend, e: Event, now: int, a: string)
    requires a in b.actions && TouchesNoAction(e)
    ensures ApprovalAfter(settings, b, e, now, a) == b.actions[a].approval
    ensures VerdictAfter(settings, b, e, a) == b.actions[a].verdict && !Approves(settings, b, e, now, a)
  {
  }

  lemma AgentKeepsActions(settings: Settings, b: Backend, e: Event, now: int, a: string)
    requires a in b.actions && TouchesNoAction(e) && !e.AutonomousClaim? && !e.AutonomousSettling? && !e.Attempting?
    ensures a in Apply(settings, b, e, now).actions && Apply(settings, b, e, now).actions[a] == b.actions[a]
  {
  }

  lemma AutonomyKeepsActions(settings: Settings, b: Backend, e: Event, now: int, a: string)
    requires a in b.actions && (e.AutonomousClaim? || e.AutonomousSettling? || e.Attempting?)
    ensures a in Apply(settings, b, e, now).actions && Apply(settings, b, e, now).actions[a] == b.actions[a]
  {
  }

  lemma ApprovalGivesRow(settings: Settings, b: Backend, e: Event, now: int, a: string)
    requires a in b.actions && e.Approving?
    ensures ApprovalAfter(settings, b, e, now, a) ==
      if Approves(settings, b, e, now, a) then Approved
      else if Lapses(settings, b, e, now, a) then Expired else b.actions[a].approval
    ensures VerdictAfter(settings, b, e, a) == b.actions[a].verdict
  {
  }

  lemma ApprovalRow(settings: Settings, b: Backend, a: string, now: int, x: string, n: nat)
    requires ActionsConsistent(b) && a in b.actions
    ensures ActionRight(settings, b, Approve(settings, b, x, n, now), Approving(x, n), now, a)
  {
    ApprovalGivesRow(settings, b, Approving(x, n), now, a);
    ApprovingExactly(settings, b, x, n, now);
  }

  lemma SettlingRow(settings: Settings, b: Backend, a: string, now: int, n: nat, ok: bool)
    requires ActionsConsistent(b) && a in b.actions
    ensures ActionRight(settings, b, Settle(b, n, ok), Settling(n, ok), now, a)
  {
    var x := About(b, Settling(n, ok));
    if Replies(b, Settling(n, ok), x) { SettlingExactly(b, n, ok, x); } else { SettlingOnlySo(b, n, ok); }
  }

  lemma RejectionRow(settings: Settings, b: Backend, a: string, now: int, x: string)
    requires ActionsConsistent(b) && a in b.actions
    ensures ActionRight(settings, b, Reject(b, x), Rejecting(x), now, a)
  {
    RejectingExactly(b, x);
  }

  lemma CheckingRow(settings: Settings, b: Backend, a: string, now: int, j: string, action: Option<string>, n: nat)
    requires a in b.actions
    ensures ActionRight(settings, b, BeginVerification(settings, b, j, action, n), Checking(j, action, n), now, a)
  {
    BeginningExactly(settings, b, j, action, n);
  }

  lemma FinishingRow(settings: Settings, b: Backend, a: string, now: int, n: nat)
    requires ActionsConsistent(b) && Anchored(b) && a in b.actions
    ensures ActionRight(settings, b, FinishVerification(b, n, now), Finishing(n), now, a)
  {
    if j :| Ends(b, Finishing(n), j) { EndingExactly(b, n, j, now); } else { EndingOnlySo(b, n, now); }
  }

  lemma JudgementRow(settings: Settings, b: Backend, a: string, now: int, n: nat)
    requires Anchored(b) && a in b.actions
    ensures ActionRight(settings, b, FinishAutonomous(b, n), AutonomousFinishing(n), now, a)
  {
    JudgingExactly(b, n);
  }

  lemma ActionExactly(settings: Settings, b: Backend, e: Event, now: int, a: string)
    requires ActionsConsistent(b) && Anchored(b) && a in b.actions
    ensures ActionRight(settings, b, Apply(settings, b, e, now), e, now, a)
  {
    if e.Approving? || e.Settling? || e.Rejecting? {
      DecidedRow(settings, b, e, now, a);
    } else if e.Checking? || e.Finishing? || e.AutonomousFinishing? {
      VerifiedRow(settings, b, e, now, a);
    } else {
      UntouchedAction(settings, b, e, now, a);
      if e.AutonomousClaim? || e.AutonomousSettling? || e.Attempting? {
        AutonomyKeepsActions(settings, b, e, now, a);
      } else {
        AgentKeepsActions(settings, b, e, now, a);
      }
    }
  }

  lemma DecidedRow(settings: Settings, b: Backend, e: Event, now: int, a: string)
    requires ActionsConsistent(b) && a in b.actions && (e.Approving? || e.Settling? || e.Rejecting?)
    ensures ActionRight(settings, b, Apply(settings, b, e, now), e, now, a)
  {
    match e
    case Approving(x, n) => ApprovalRow(settings, b, a, now, x, n);
    case Settling(n, ok) => SettlingRow(settings, b, a, now, n, ok);
    case Rejecting(x) => RejectionRow(settings, b, a, now, x);
  }

  lemma VerifiedRow(settings: Settings, b: Backend, e: Event, now: int, a: string)
    requires ActionsConsistent(b) && Anchored(b) && a in b.actions
    requires e.Checking? || e.Finishing? || e.AutonomousFinishing?
    ensures ActionRight(settings, b, Apply(settings, b, e, now), e, now, a)
  {
    match e
    case Checking(j, action, n) => CheckingRow(settings, b, a, now, j, action, n);
    case Finishing(n) => FinishingRow(settings, b, a, now, n);
    case AutonomousFinishing(n) => JudgementRow(settings, b, a, now, n);
  }

  /** At every step of every run, every row of an action is decided, executed and judged by these causes, and
      by no event otherwise. */
  lemma ActionsChangeExactly(settings: Settings, events: seq<(Event, int)>, k: nat, a: string)
    requires k < |events| && a in Runs.Replay(settings, events[..k]).actions
    ensures ActionRight(settings, Runs.Replay(settings, events[..k]), Runs.Replay(settings, events[..k + 1]),
      events[k].0, events[k].1, a)
  {
    var b := Runs.Replay(settings, events[..k]);
    Runs.RunsKeepTheInvariant(settings, events[..k]);
    SoundIsAnchored(settings, b);
    Runs.ReplayStep(settings, events, k);
    ActionExactly(settings, b, events[k].0, events[k].1, a);
  }

  // --- The rows that appear ---

  /** A new row is what the operator is asked, or what the agent does by itself on its evidence. */
  ghost predicate AppearRight(settings: Settings, b: Backend, c: Backend, e: Event, now: int) {
    if Asks(settings, b, e) then
      c.actions == b.actions[e.a :=
        Action(e.i, e.tool, e.arguments, true, now + settings.ttl, Pending, false, 0, [], NotRun)]
    else if ActsByItself(settings, b, e, now) then exists evidence :: ActsOn(settings, b, c, e, now, evidence)
    else c.actions.Keys == b.actions.Keys
  }

  lemma AgentAppears(settings: Settings, b: Backend, e: Event, now: int)
    requires !e.Proposal? && !e.AutonomousClaim? && TouchesNoAction(e)
    ensures Apply(settings, b, e, now).actions == b.actions
  {
  }

  lemma OperatorAppears(settings: Settings, b: Backend, e: Event, now: int)
    requires !TouchesNoAction(e)
    ensures Apply(settings, b, e, now).actions.Keys == b.actions.Keys
  {
  }

  lemma AppearExactly(settings: Settings, b: Backend, e: Event, now: int)
    ensures AppearRight(settings, b, Apply(settings, b, e, now), e, now)
  {
    if e.Proposal? {
      AsksExactly(settings, b, e.i, e.a, e.tool, e.arguments, now);
    } else if e.AutonomousClaim? {
      ClaimAppears(settings, b, e, now);
    } else if TouchesNoAction(e) {
      AgentAppears(settings, b, e, now);
    } else {
      OperatorAppears(settings, b, e, now);
    }
  }

  lemma ClaimAppears(settings: Settings, b: Backend, e: Event, now: int)
    requires e.AutonomousClaim?
    ensures AppearRight(settings, b, Apply(settings, b, e, now), e, now)
  {
    ActsExactly(settings, b, e.i, e.a, e.tool, e.arguments, e.ids, e.n, now);
  }

  /** At every step of every run, an action appears exactly when the operator is asked, or the agent acts by
      itself, by these causes, and with this row. */
  lemma ActionsAppearExactly(settings: Settings, events: seq<(Event, int)>, k: nat)
    requires k < |events|
    ensures AppearRight(settings, Runs.Replay(settings, events[..k]), Runs.Replay(settings, events[..k + 1]),
      events[k].0, events[k].1)
  {
    Runs.ReplayStep(settings, events, k);
    AppearExactly(settings, Runs.Replay(settings, events[..k]), events[k].0, events[k].1);
  }

  // --- What else an incident holds ---

  /** The observation the event records for the incident, if any. */
  function Noted(b: Backend, e: Event, now: int, i: string): seq<Observation> {
    match e
    case Observing(j, tool, arguments, ok, result, o, precheck) =>
      if j == i then [Observation(o, tool, arguments, ok, result, if precheck then Precheck else Investigation, now)]
      else []
    case Attempting(n, ok, result, o) =>
      if CanTry(b, n) && b.tasks[n].incident == i then
        var c := b.tasks[n].checks[|b.tasks[n].results|];
        [Observation(o, c.tool, c.arguments, ok, result, Verification, now)]
      else []
    case AutonomousSettling(n, ok, result, o) =>
      if n in b.tasks && b.tasks[n].Dispatch? && ReportsBack(b, e, b.tasks[n].action)
        && b.actions[b.tasks[n].action].incident == i
      then
        var a := b.actions[b.tasks[n].action];
        [Observation(o, a.tool, a.arguments, ok, result, Remediation, now)]
      else []
    case _ => []
  }

  /** Everything but the status: the observations, the cited ids, and what a recovery stores. */
  ghost predicate RestRight(b: Backend, c: Backend, e: Event, now: int, i: string)
    requires i in b.incidents
  {
    && i in c.incidents
    && c.incidents[i] == b.incidents[i].(
         status := c.incidents[i].status,
         observations := b.incidents[i].observations + Noted(b, e, now, i),
         cited := if e.Diagnosis? && e.i == i && Evidenced(b.incidents[i], e.ids) then e.ids else b.incidents[i].cited,
         resolvedAt := if Resolves(b, e, i) then Some(now) else if Ends(b, e, i) then None
           else b.incidents[i].resolvedAt,
         verification := if Ends(b, e, i) then Checked(b.tasks[e.n].results, b.tasks[e.n].since)
                         else b.incidents[i].verification)
  }

  lemma AgentRest(settings: Settings, b: Backend, e: Event, now: int, i: string)
    requires i in b.incidents
    requires e.Creation? || e.Claim? || e.Start? || e.Observing? || e.Conclusion? || e.Failure?
    ensures RestRight(b, Apply(settings, b, e, now), e, now, i)
  {
  }

  lemma DiagnosisRest(settings: Settings, b: Backend, e: Event, now: int, i: string)
    requires i in b.incidents && (e.Diagnosis? || e.Proposal?)
    ensures RestRight(b, Apply(settings, b, e, now), e, now, i)
  {
    if e.Diagnosis? { DiagnosingExactly(b, e.i, e.ids); }
  }

  lemma OperatorRest(settings: Settings, b: Backend, e: Event, now: int, i: string)
    requires i in b.incidents && e.Approving?
    ensures RestRight(b, Apply(settings, b, e, now), e, now, i)
  {
  }

  lemma CheckingRest(settings: Settings, b: Backend, e: Event, now: int, i: string)
    requires i in b.incidents && e.Checking?
    ensures RestRight(b, Apply(settings, b, e, now), e, now, i)
  {
    BeginningExactly(settings, b, e.i, e.action, e.n);
  }

  lemma ReplyRest(settings: Settings, b: Backend, e: Event, now: int, i: string)
    requires i in b.incidents && (e.Settling? || e.Rejecting?)
    ensures RestRight(b, Apply(settings, b, e, now), e, now, i)
  {
  }

  lemma AttemptRest(settings: Settings, b: Backend, e: Event, now: int, i: string)
    requires ActionsConsistent(b) && i in b.incidents && (e.Attempting? || e.AutonomousSettling?)
    ensures RestRight(b, Apply(settings, b, e, now), e, now, i)
  {
    match e
    case Attempting(n, ok, result, o) => AttemptExactly(b, n, ok, result, o, now);
    case AutonomousSettling(n, ok, result, o) =>
      if a :| ReportsBack(b, e, a) {
        ReportingExactly(b, n, ok, result, o, now, a);
      } else {
        ReportingOnlySo(b, n, ok, result, o, now);
      }
  }

  lemma FinishingRest(settings: Settings, b: Backend, e: Event, now: int, i: string)
    requires ActionsConsistent(b) && Anchored(b) && i in b.incidents && e.Finishing?
    ensures RestRight(b, Apply(settings, b, e, now), e, now, i)
  {
    if j :| Ends(b, e, j) { EndingExactly(b, e.n, j, now); } else { EndingOnlySo(b, e.n, now); }
  }

  lemma OtherRest(settings: Settings, b: Backend, e: Event, now: int, i: string)
    requires i in b.incidents
    requires e.AutonomousClaim? || e.AutonomousFinishing? || e.Abandoning? || e.Restarting? || e.Sending?
    ensures RestRight(b, Apply(settings, b, e, now), e, now, i)
  {
  }

  lemma RestExactly(settings: Settings, b: Backend, e: Event, now: int, i: string)
    requires ActionsConsistent(b) && Anchored(b) && i in b.incidents
    ensures RestRight(b, Apply(settings, b, e, now), e, now, i)
  {
    if e.Approving? { OperatorRest(settings, b, e, now, i); }
    else if e.Checking? { CheckingRest(settings, b, e, now, i); }
    else if e.Settling? || e.Rejecting? { ReplyRest(settings, b, e, now, i); }
    else if e.Attempting? || e.AutonomousSettling? { AttemptRest(settings, b, e, now, i); }
    else if e.Diagnosis? || e.Proposal? { DiagnosisRest(settings, b, e, now, i); }
    else if e.Finishing? { FinishingRest(settings, b, e, now, i); }
    else if e.AutonomousClaim? || e.AutonomousFinishing? || e.Abandoning? || e.Restarting? || e.Sending? {
      OtherRest(settings, b, e, now, i);
    }
    else { AgentRest(settings, b, e, now, i); }
  }

  /** A new incident is open and empty. */
  ghost predicate NewIncidentsRight(b: Backend, c: Backend, e: Event) {
    if e.Creation? && e.i !in b.incidents
    then c.incidents == b.incidents[e.i := Incident(e.service, Open, None, [], [], Checked([], 0))]
    else c.incidents.Keys == b.incidents.Keys
  }

  lemma NewIncident(settings: Settings, b: Backend, e: Event, now: int)
    ensures NewIncidentsRight(b, Apply(settings, b, e, now), e)
  {
  }

  /** At every step of every run, incidents appear by being created, and never otherwise. */
  lemma IncidentsAppearExactly(settings: Settings, events: seq<(Event, int)>, k: nat)
    requires k < |events|
    ensures NewIncidentsRight(Runs.Replay(settings, events[..k]), Runs.Replay(settings, events[..k + 1]), events[k].0)
  {
    Runs.ReplayStep(settings, events, k);
    NewIncident(settings, Runs.Replay(settings, events[..k]), events[k].0, events[k].1);
  }

  /** At every step of every run, the status of every incident is the one that the event gives it by these
      causes, and no event changes it otherwise; and the same of everything else that its row holds. */
  lemma IncidentsChangeExactly(settings: Settings, events: seq<(Event, int)>, k: nat, i: string)
    requires k < |events| && i in Runs.Replay(settings, events[..k]).incidents
    ensures var b, c := Runs.Replay(settings, events[..k]), Runs.Replay(settings, events[..k + 1]);
      var e, now := events[k].0, events[k].1;
      StatusRight(settings, b, c, e, now, i) && RestRight(b, c, e, now, i)
  {
    var b := Runs.Replay(settings, events[..k]);
    Runs.RunsKeepTheInvariant(settings, events[..k]);
    SoundIsAnchored(settings, b);
    Runs.ReplayStep(settings, events, k);
    StatusExactly(settings, b, events[k].0, events[k].1, i);
    RestExactly(settings, b, events[k].0, events[k].1, i);
  }

  // --- The running tasks ---

  /** Task `n` begins with this event: a dispatch or a recovery. */
  ghost predicate StartsTask(settings: Settings, b: Backend, e: Event, now: int, n: nat) {
    || (e.Approving? && e.n == n && Approves(settings, b, e, now, e.a))
    || (BeginsToVerify(settings, b, e) && e.n == n)
    || (ActsByItself(settings, b, e, now) && e.n == n)
  }

  /** Task `n` ends with this event: it was answered, it has all its results, or it is lost. */
  predicate StopsTask(b: Backend, e: Event, n: nat)
    requires n in b.tasks
  {
    || e.Restarting? || e == Abandoning(n)
    || (e.Settling? && e.n == n && Replies(b, e, About(b, e)))
    || (e.Finishing? && e.n == n && b.tasks[n].Verify? && Ends(b, e, b.tasks[n].incident))
    || (e.AutonomousFinishing? && e.n == n && b.tasks[n].Verify? && b.tasks[n].purpose.ExactTarget?
        && EndsExact(b, e, b.tasks[n].purpose.claimed))
  }

  ghost function TaskAfter(b: Backend, e: Event, n: nat): Task
    requires n in b.tasks
  {
    var t := b.tasks[n];
    if e.Attempting? && e.n == n && CanTry(b, n) then Tried(b, t, e.ok, e.result, e.id)
    else if e.Sending? && e.n == n && t.Dispatch? then t.(sent := true)
    else if e.AutonomousSettling? && e.n == n && t.Dispatch? && ReportsBack(b, e, t.action)
            && b.actions[t.action].incident in b.incidents
    then
      var i := b.actions[t.action].incident;
      Verify(ExactTarget(t.action, e.ok), i, t.exact, [], 0, |b.incidents[i].observations| + 1)
    else t
  }

  ghost predicate TaskRight(b: Backend, c: Backend, e: Event, n: nat)
    requires n in b.tasks
  {
    (n in c.tasks <==> !StopsTask(b, e, n)) && (n in c.tasks ==> c.tasks[n] == TaskAfter(b, e, n))
  }

  lemma AgentTasks(settings: Settings, b: Backend, e: Event, now: int, n: nat)
    requires n in b.tasks
    requires e.Creation? || e.Claim? || e.Start? || e.Observing? || e.Diagnosis? || e.Proposal? || e.Conclusion?
      || e.Failure?
    ensures TaskRight(b, Apply(settings, b, e, now), e, n)
  {
  }

  lemma OperatorTasks(settings: Settings, b: Backend, e: Event, now: int, n: nat)
    requires ActionsConsistent(b) && n in b.tasks && (e.Approving? || e.Rejecting? || e.Checking? || e.AutonomousClaim?)
    ensures TaskRight(b, Apply(settings, b, e, now), e, n)
  {
  }

  lemma SettlingTasks(settings: Settings, b: Backend, e: Event, now: int, n: nat)
    requires ActionsConsistent(b) && n in b.tasks && (e.Settling? || e.AutonomousSettling?)
    ensures TaskRight(b, Apply(settings, b, e, now), e, n)
  {
    match e
    case Settling(m, ok) =>
      if Replies(b, e, About(b, e)) { SettlingExactly(b, m, ok, About(b, e)); } else { SettlingOnlySo(b, m, ok); }
    case AutonomousSettling(m, ok, result, o) =>
      if a :| ReportsBack(b, e, a) {
        ReportingExactly(b, m, ok, result, o, now, a);
      } else {
        ReportingOnlySo(b, m, ok, result, o, now);
      }
  }

  lemma VerificationTasks(settings: Settings, b: Backend, e: Event, now: int, n: nat)
    requires ActionsConsistent(b) && Anchored(b) && n in b.tasks
    requires e.Attempting? || e.Finishing? || e.AutonomousFinishing?
    ensures TaskRight(b, Apply(settings, b, e, now), e, n)
  {
    match e
    case Attempting(m, ok, result, o) => AttemptExactly(b, m, ok, result, o, now);
    case Finishing(m) => if j :| Ends(b, e, j) { EndingExactly(b, m, j, now); } else { EndingOnlySo(b, m, now); }
    case AutonomousFinishing(m) => JudgingExactly(b, m);
  }

  lemma OtherTasks(settings: Settings, b: Backend, e: Event, now: int, n: nat)
    requires n in b.tasks && (e.Abandoning? || e.Restarting? || e.Sending?)
    ensures TaskRight(b, Apply(settings, b, e, now), e, n)
  {
  }

  lemma TaskExactly(settings: Settings, b: Backend, e: Event, now: int, n: nat)
    requires ActionsConsistent(b) && Anchored(b) && n in b.tasks
    ensures TaskRight(b, Apply(settings, b, e, now), e, n)
  {
    if e.Approving? || e.Rejecting? || e.Checking? || e.AutonomousClaim? { OperatorTasks(settings, b, e, now, n); }
    else if e.Settling? || e.AutonomousSettling? { SettlingTasks(settings, b, e, now, n); }
    else if e.Attempting? || e.Finishing? || e.AutonomousFinishing? { VerificationTasks(settings, b, e, now, n); }
    else if e.Abandoning? || e.Restarting? || e.Sending? { OtherTasks(settings, b, e, now, n); }
    else { AgentTasks(settings, b, e, now, n); }
  }

  /** A task that begins is the dispatch of the action that was claimed, or the recovery that was asked for,
      by the checks of the topology; what the agent's own dispatch inspects is said where it acts. */
  ghost predicate NewTaskRight(settings: Settings, b: Backend, c: Backend, e: Event, starts: bool, n: nat) {
    && (n in c.tasks <==> starts)
    && (n in c.tasks ==>
          match e
          case Approving(a, _) => c.tasks[n] == Dispatch(a, false, [])
          case Checking(i, action, _) =>
            && AsksToVerify(b, e)
            && var checks := VerificationChecks(settings.topology, b.incidents[i].service, After(b, action));
               checks.Ok? && c.tasks[n] == Verify(Recovery(action), i, checks.value, [], 0,
                 |b.incidents[i].observations|)
          case _ => c.tasks[n].Dispatch? && c.tasks[n].action in c.actions && !c.tasks[n].sent)
  }

  lemma ClaimStarts(settings: Settings, b: Backend, e: Event, now: int, n: nat)
    requires ActionsConsistent(b) && n !in b.tasks && (e.Approving? || e.Checking?)
    ensures NewTaskRight(settings, b, Apply(settings, b, e, now), e, StartsTask(settings, b, e, now, n), n)
  {
    match e
    case Approving(a, m) => ApprovingExactly(settings, b, a, m, now);
    case Checking(i, action, m) => BeginningExactly(settings, b, i, action, m);
  }

  /** After the agent's claim only its own new dispatch runs besides what ran before. */
  ghost predicate OnlyDispatches(b: Backend, c: Backend, acts: bool, n: nat, a: string) {
    if acts then
      && n in c.tasks && a in c.actions && c.tasks == b.tasks[n := c.tasks[n]]
      && c.tasks[n].Dispatch? && c.tasks[n].action == a && !c.tasks[n].sent
    else c == b
  }

  lemma AutonomyStarts(settings: Settings, b: Backend, c: Backend, e: Event, acts: bool, n: nat)
    requires n !in b.tasks && e.AutonomousClaim? && OnlyDispatches(b, c, acts, e.n, e.a)
    ensures NewTaskRight(settings, b, c, e, acts && e.n == n, n)
  {
  }

  lemma StartsByClaim(settings: Settings, b: Backend, e: Event, now: int, n: nat)
    requires e.AutonomousClaim?
    ensures StartsTask(settings, b, e, now, n) <==> ActsByItself(settings, b, e, now) && e.n == n
  {
  }

  /** An action of the agent's own brings one unsent dispatch. */
  lemma AutonomousDispatch(settings: Settings, b: Backend, i: string, a: string, tool: string, arguments: Json,
                           ids: seq<string>, n: nat, now: int)
    ensures var c := ClaimAutonomous(settings, b, i, a, tool, arguments, ids, n, now);
      OnlyDispatches(b, c, ActsByItself(settings, b, AutonomousClaim(i, a, tool, arguments, ids, n), now), n, a)
  {
    ActsExactly(settings, b, i, a, tool, arguments, ids, n, now);
  }

  lemma OthersStartNothing(settings: Settings, b: Backend, e: Event, now: int, n: nat)
    requires n !in b.tasks && !e.Approving? && !e.Checking? && !e.AutonomousClaim?
    ensures n !in Apply(settings, b, e, now).tasks && !StartsTask(settings, b, e, now, n)
  {
  }

  lemma NewTaskExactly(settings: Settings, b: Backend, e: Event, now: int, n: nat)
    requires ActionsConsistent(b) && n !in b.tasks
    ensures NewTaskRight(settings, b, Apply(settings, b, e, now), e, StartsTask(settings, b, e, now, n), n)
  {
    if e.Approving? || e.Checking? { ClaimStarts(settings, b, e, now, n); }
    else if e.AutonomousClaim? { 
      AutonomousDispatch(settings, b, e.i, e.a, e.tool, e.arguments, e.ids, e.n, now);
      AutonomyStarts(settings, b, Apply(settings, b, e, now), e, ActsByItself(settings, b, e, now), n);
      StartsByClaim(settings, b, e, now, n);
    }
    else { OthersStartNothing(settings, b, e, now, n); }
  }

  /** At every step of every run, tasks begin, go on and end by these causes, and not otherwise. */
  lemma TasksChangeExactly(settings: Settings, events: seq<(Event, int)>, k: nat, n: nat)
    requires k < |events|
    ensures var b, c := Runs.Replay(settings, events[..k]), Runs.Replay(settings, events[..k + 1]);
      var e, now := events[k].0, events[k].1;
      if n in b.tasks then TaskRight(b, c, e, n)
      else NewTaskRight(settings, b, c, e, StartsTask(settings, b, e, now, n), n)
  {
    var b := Runs.Replay(settings, events[..k]);
    Runs.RunsKeepTheInvariant(settings, events[..k]);
    SoundIsAnchored(settings, b);
    Runs.ReplayStep(settings, events, k);
    if n in b.tasks {
      TaskExactly(settings, b, events[k].0, events[k].1, n);
    } else {
      NewTaskExactly(settings, b, events[k].0, events[k].1, n);
    }
  }
}
