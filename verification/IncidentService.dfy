/** The service object that holds the rows, with the statements that update them. Every method is
    one atomic segment and changes the state exactly as the state machine says. */
module IncidentService {
  import opened JsonValues
  import opened Topology
  import opened RecoveryChecks
  import opened Records
  import opened Tools
  import opened Autonomy
  import opened Incidents
  import opened IncidentInvariants

  class Service {
    const settings: Settings
    var incidents: map<string, Incident>
    var actions: map<string, Action>
    var tasks: map<nat, Task>

    function View(): Backend
      reads this
    {
      Backend(incidents, actions, tasks)
    }

    /** The state invariant of the incidents, the actions and the running tasks. */
    ghost predicate Valid()
      reads this
    {
      Invariant(settings, View())
    }

    constructor (settings: Settings)
      ensures this.settings == settings && View() == Backend(map[], map[], map[]) && Valid()
    {
      this.settings := settings;
      incidents, actions, tasks := map[], map[], map[];
      new;
      EmptyKeeps(settings);
    }

    /** `any(a.id != action_id and a.approval_status == 'PENDING' for a in incident.actions)`. */
    method AnyPending(i: string, except: set<string>) returns (r: bool)
      ensures r == (PendingIds(actions, i) - except != {})
    {
      var rest := actions.Keys - except;
      r := false;
      while rest != {}
        invariant rest <= actions.Keys - except
        invariant forall a :: a in PendingIds(actions, i) - except ==> a in rest
        decreases |rest|
      {
        var a :| a in rest;
        if actions[a].incident == i && actions[a].approval.Pending? {
          assert a in PendingIds(actions, i) - except;
          return true;
        }
        rest := rest - {a};
      }
    }

    method UpdateOnApproval(a: string, n: nat, now: int)
      modifies this
      ensures View() == Approve(settings, old(View()), a, n, now)
    {
      if !settings.writes || a !in actions || actions[a].incident !in incidents {
        return;
      }
      var action := actions[a];
      var i := action.incident;
      if !action.approval.Pending? || action.executed {
        return;
      }
      if action.expires <= now {
        var others := AnyPending(i, {a});
        actions := actions[a := action.(approval := Expired)];
        if !others {
          incidents := incidents[i := incidents[i].(status := Open)];
        }
        return;
      }
      if !MayClaim(settings, incidents[i], action) || n in tasks {
        return;
      }
      actions := actions[a := action.(approval := Approved, executed := true, claimedAt := now)];
      incidents := incidents[i := incidents[i].(status := Verifying)];
      tasks := tasks[n := Dispatch(a, false, [])];
    }

    method UpdateOnReply(n: nat, ok: bool)
      modifies this
      ensures View() == Settle(old(View()), n, ok)
    {
      if n !in tasks || !tasks[n].Dispatch? || tasks[n].action !in actions {
        return;
      }
      var a := tasks[n].action;
      var i := actions[a].incident;
      if !actions[a].requiresApproval || i !in incidents {
        return;
      }
      tasks := tasks - {n};
      if !ok {
        var others := AnyPending(i, {a});
        actions := actions[a := actions[a].(verdict := Failed)];
        incidents := incidents[i := incidents[i].(status := if others then WaitingForApproval else Open)];
      }
    }

    method UpdateOnRejection(a: string)
      modifies this
      ensures View() == Reject(old(View()), a)
    {
      if a !in actions || !actions[a].approval.Pending? || actions[a].incident !in incidents {
        return;
      }
      var i := actions[a].incident;
      var others := AnyPending(i, {a});
      actions := actions[a := actions[a].(approval := Rejected)];
      if incidents[i].status !in {Verifying, Investigating} && !others {
        incidents := incidents[i := incidents[i].(status := Open)];
      }
    }

    method UpdateOnVerification(i: string, action: Option<string>, n: nat)
      modifies this
      ensures View() == BeginVerification(settings, old(View()), i, action, n)
    {
      if i !in incidents || incidents[i].status.Investigating? || incidents[i].cited == [] {
        return;
      }
      if action.Some? && (action.value !in actions || actions[action.value].incident != i) {
        return;
      }
      var checks := CollectChecks(settings.topology, incidents[i].service,
                                  if action.Some? then Some(TargetOf(actions[action.value])) else None);
      if checks.Refused? {
        incidents := incidents[i := incidents[i].(status := Open)];
        if action.Some? {
          actions := actions[action.value := actions[action.value].(verdict := Blocked)];
        }
        return;
      }
      if !Runnable(settings, checks) || n in tasks {
        return;
      }
      incidents := incidents[i := incidents[i].(status := Verifying)];
      tasks := tasks[n := Verify(Recovery(action), i, checks.value, [], 0, |incidents[i].observations|)];
    }

    method UpdateOnAttempt(n: nat, ok: bool, result: Json, o: string, now: int)
      modifies this
      ensures View() == Attempt(old(View()), n, ok, result, o, now)
    {
      if n !in tasks || !tasks[n].Verify? {
        return;
      }
      var t := tasks[n];
      if |t.results| >= |t.checks| || t.incident !in incidents {
        return;
      }
      var c := t.checks[|t.results|];
      var met := CheckMatches(result, c.expected);
      var passed := ok && met;
      var inc := incidents[t.incident];
      incidents := incidents[t.incident := inc.(observations :=
        inc.observations + [Observation(o, c.tool, c.arguments, ok, result, Verification, now)])];
      if passed || t.attempts + 1 >= Tries(View(), t.purpose, c) {
        t := t.(results := t.results + [CheckResult(c, passed, o, |inc.observations|)], attempts := 0);
      } else {
        t := t.(attempts := t.attempts + 1);
      }
      tasks := tasks[n := t];
    }

    /** `for item in pending: item.approval_status = 'EXPIRED'`. */
    method ExpireAll(i: string)
      modifies `actions
      ensures actions == ExpirePending(old(actions), i)
    {
      ghost var before := actions;
      var rest := actions.Keys;
      while rest != {}
        invariant rest <= before.Keys && actions.Keys == before.Keys
        invariant forall a :: a in before.Keys ==> actions[a] == if a in rest then before[a]
          else ExpirePending(before, i)[a]
        decreases |rest|
      {
        var a :| a in rest;
        if actions[a].incident == i && actions[a].approval.Pending? {
          actions := actions[a := actions[a].(approval := Expired)];
        }
        rest := rest - {a};
      }
    }

    method UpdateOnResults(n: nat, now: int)
      modifies this
      ensures View() == FinishVerification(old(View()), n, now)
    {
      if !Finished(View(), n) || !tasks[n].purpose.Recovery? || tasks[n].incident !in incidents {
        return;
      }
      var t := tasks[n];
      var a := t.purpose.action;
      if a.Some? && a.value !in actions {
        return;
      }
      var i := t.incident;
      var verified := AllPassed(t.results);
      var stopped := a.Some? && IsStop(actions[a.value].tool);
      var pending := AnyPending(i, {});
      incidents := incidents[i := incidents[i].(
        status := if stopped then Open else if verified then Resolved else if pending then WaitingForApproval else Open,
        resolvedAt := if !stopped && verified then Some(now) else None,
        verification := Checked(t.results, t.since))];
      if a.Some? {
        actions := actions[a.value := actions[a.value].(verdict := if verified then Passed else Failed)];
      }
      if verified {
        ExpireAll(i);
      }
      tasks := tasks - {n};
    }

    /** Authorization, then the exact-target checks, each of which must be runnable. */
    method DecideByItself(i: string, tool: string, arguments: Json, ids: seq<string>, now: int)
      returns (r: Option<(Action, seq<Check>)>)
      requires i in incidents
      ensures r == Decide(settings, i, incidents[i], actions, tool, arguments, ids, now)
    {
      var inc := incidents[i];
      var used := if ids == [] then Ids(inc.observations) else ids;
      var evidence := Authorize(settings, i, inc, actions, tool, arguments, used, now);
      if evidence.None? {
        return None;
      }
      var checks := CollectChecks(settings.topology, inc.service, Some(Target(tool, arguments)));
      if checks.Refused? {
        return None;
      }
      var action := Action(i, tool, arguments, false, now, AutoAuthorized, true, now, Ids(evidence.value), NotRun);
      var exact := KeepExact(checks.value, action);
      if exact == [] || !Runnable(settings, Ok(exact)) {
        return None;
      }
      r := Some((action, exact));
    }

    method UpdateOnClaim(i: string, a: string, tool: string, arguments: Json, ids: seq<string>, n: nat, now: int)
      modifies this
      ensures View() == ClaimAutonomous(settings, old(View()), i, a, tool, arguments, ids, n, now)
    {
      if i !in incidents || a in actions || n in tasks {
        return;
      }
      var decision := DecideByItself(i, tool, arguments, ids, now);
      if decision.Some? {
        actions := actions[a := decision.value.0];
        tasks := tasks[n := Dispatch(a, false, decision.value.1)];
      }
    }

    method UpdateOnOutcome(n: nat, ok: bool, result: Json, o: string, now: int)
      modifies this
      ensures View() == SettleAutonomous(old(View()), n, ok, result, o, now)
    {
      if n !in tasks || !tasks[n].Dispatch? || tasks[n].action !in actions {
        return;
      }
      var a := tasks[n].action;
      var action := actions[a];
      if action.requiresApproval || action.incident !in incidents {
        return;
      }
      var inc := incidents[action.incident];
      incidents := incidents[action.incident := inc.(observations :=
        inc.observations + [Observation(o, action.tool, action.arguments, ok, result, Remediation, now)])];
      tasks := tasks[n :=
        Verify(ExactTarget(a, ok), action.incident, tasks[n].exact, [], 0, |incidents[action.incident].observations|)];
    }

    method UpdateOnJudgement(n: nat)
      modifies this
      ensures View() == FinishAutonomous(old(View()), n)
    {
      if !Finished(View(), n) || !tasks[n].purpose.ExactTarget? || tasks[n].purpose.claimed !in actions {
        return;
      }
      var a := tasks[n].purpose.claimed;
      actions := actions[a := actions[a].(verdict := if AllPassed(tasks[n].results) then Passed else Failed)];
      tasks := tasks - {n};
    }

    method UpdateOnProposal(i: string, a: string, tool: string, arguments: Json, now: int)
      modifies this
      ensures View() == Propose(settings, old(View()), i, a, tool, arguments, now)
    {
      if i !in incidents || !Proposable(settings, incidents[i], tool, arguments) {
        return;
      }
      if AlreadyPending(actions, i, tool, arguments) || a in actions {
        return;
      }
      actions := actions[a := Action(i, tool, arguments, true, now + settings.ttl, Pending, false, 0, [], NotRun)];
      incidents := incidents[i := incidents[i].(status := WaitingForApproval)];
    }

    /** The startup loop over interrupted incidents. */
    method UpdateOnRestart()
      modifies this
      ensures View() == Restart(old(View()))
    {
      ghost var before := incidents;
      tasks := map[];
      var rest := incidents.Keys;
      while rest != {}
        invariant rest <= before.Keys && incidents.Keys == before.Keys && actions == old(actions) && tasks == map[]
        invariant forall i :: i in before.Keys ==>
          incidents[i] == if i in rest then before[i] else Restart(old(View())).incidents[i]
        decreases |rest|
      {
        var i :| i in rest;
        if incidents[i].status in {Investigating, Verifying} {
          incidents := incidents[i := incidents[i].(status := Interrupted)];
        }
        rest := rest - {i};
      }
    }

    // --- What callers use: every segment keeps the invariant, and lets rows only evolve ---

    method ApproveAction(a: string, n: nat, now: int)
      requires Valid()
      modifies this
      ensures View() == Approve(settings, old(View()), a, n, now)
      ensures Valid() && Evolves(old(View()), View())
    {
      ApproveStep(settings, View(), a, n, now);
      UpdateOnApproval(a, n, now);
    }

    method SettleDispatch(n: nat, ok: bool)
      requires Valid()
      modifies this
      ensures View() == Settle(old(View()), n, ok)
      ensures Valid() && Evolves(old(View()), View())
    {
      SettleStep(settings, View(), n, ok);
      UpdateOnReply(n, ok);
    }

    method RejectAction(a: string)
      requires Valid()
      modifies this
      ensures View() == Reject(old(View()), a)
      ensures Valid() && Evolves(old(View()), View())
    {
      RejectStep(settings, View(), a);
      UpdateOnRejection(a);
    }

    method BeginVerify(i: string, action: Option<string>, n: nat)
      requires Valid()
      modifies this
      ensures View() == BeginVerification(settings, old(View()), i, action, n)
      ensures Valid() && Evolves(old(View()), View())
    {
      BeginVerificationStep(settings, View(), i, action, n);
      UpdateOnVerification(i, action, n);
    }

    method RecordAttempt(n: nat, ok: bool, result: Json, o: string, now: int)
      requires Valid()
      modifies this
      ensures View() == Attempt(old(View()), n, ok, result, o, now)
      ensures Valid() && Evolves(old(View()), View())
    {
      AttemptStep(settings, View(), n, ok, result, o, now);
      UpdateOnAttempt(n, ok, result, o, now);
    }

    method FinishVerify(n: nat, now: int)
      requires Valid()
      modifies this
      ensures View() == FinishVerification(old(View()), n, now)
      ensures Valid() && Evolves(old(View()), View())
    {
      FinishVerificationStep(settings, View(), n, now);
      UpdateOnResults(n, now);
    }

    method ClaimByItself(i: string, a: string, tool: string, arguments: Json, ids: seq<string>, n: nat, now: int)
      requires Valid()
      modifies this
      ensures View() == ClaimAutonomous(settings, old(View()), i, a, tool, arguments, ids, n, now)
      ensures Valid() && Evolves(old(View()), View())
    {
      ClaimAutonomousStep(settings, View(), i, a, tool, arguments, ids, n, now);
      UpdateOnClaim(i, a, tool, arguments, ids, n, now);
    }

    method SettleByItself(n: nat, ok: bool, result: Json, o: string, now: int)
      requires Valid()
      modifies this
      ensures View() == SettleAutonomous(old(View()), n, ok, result, o, now)
      ensures Valid() && Evolves(old(View()), View())
    {
      SettleAutonomousStep(settings, View(), n, ok, result, o, now);
      UpdateOnOutcome(n, ok, result, o, now);
    }

    method FinishByItself(n: nat)
      requires Valid()
      modifies this
      ensures View() == FinishAutonomous(old(View()), n)
      ensures Valid() && Evolves(old(View()), View())
    {
      FinishAutonomousStep(settings, View(), n);
      UpdateOnJudgement(n);
    }

    method ProposeAction(i: string, a: string, tool: string, arguments: Json, now: int)
      requires Valid()
      modifies this
      ensures View() == Propose(settings, old(View()), i, a, tool, arguments, now)
      ensures Valid() && Evolves(old(View()), View())
    {
      ProposeStep(settings, View(), i, a, tool, arguments, now);
      UpdateOnProposal(i, a, tool, arguments, now);
    }

    method RestartBackend()
      requires Valid()
      modifies this
      ensures View() == Restart(old(View()))
      ensures Valid() && Evolves(old(View()), View())
    {
      RestartStep(settings, View());
      UpdateOnRestart();
    }
  }
}
