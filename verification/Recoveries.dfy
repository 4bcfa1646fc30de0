/** A recovery that can be shown is found: when every check of a begun verification passes, its end resolves the
    incident. */
module Recoveries {
  import opened JsonValues
  import opened Topology
  import opened RecoveryChecks
  import opened Records
  import opened Incidents
  import opened IncidentInvariants
  import opened Outcomes
  import Runs = IncidentRuns

  function Continue(settings: Settings, b: Backend, events: seq<(Event, int)>): Backend {
    if events == [] then b
    else
      var last := events[|events| - 1];
      Apply(settings, Continue(settings, b, events[..|events| - 1]), last.0, last.1)
  }

  lemma ContinueOne(settings: Settings, b: Backend, events: seq<(Event, int)>, e: Event, now: int)
    ensures Continue(settings, b, events + [(e, now)]) == Apply(settings, Continue(settings, b, events), e, now)
  {
    assert (events + [(e, now)])[..|events|] == events;
  }

  /** What follows a run goes on from where it ended. */
  lemma {:induction false} ContinuesTheRun(settings: Settings, before: seq<(Event, int)>, events: seq<(Event, int)>)
    ensures Runs.Replay(settings, before + events) == Continue(settings, Runs.Replay(settings, before), events)
  {
    if events == [] {
      assert before + events == before;
    } else {
      var last := |events| - 1;
      assert (before + events)[..|before + events| - 1] == before + events[..last];
      ContinuesTheRun(settings, before, events[..last]);
    }
  }

  lemma {:induction false} ContinueKeeps(settings: Settings, b: Backend, events: seq<(Event, int)>)
    requires Invariant(settings, b)
    ensures Invariant(settings, Continue(settings, b, events))
  {
    if events != [] {
      var last := |events| - 1;
      ContinueKeeps(settings, b, events[..last]);
      Runs.ApplyStep(settings, Continue(settings, b, events[..last]), events[last].0, events[last].1);
    }
  }

  lemma ContinueIsConsistent(settings: Settings, b: Backend, events: seq<(Event, int)>)
    requires Invariant(settings, b)
    ensures ActionsConsistent(Continue(settings, b, events)) && Anchored(Continue(settings, b, events))
  {
    ContinueKeeps(settings, b, events);
    SoundIsAnchored(settings, Continue(settings, b, events));
  }

  /** A successful reply, the id of its observation, and when it comes. */
  datatype Reply = Reply(result: Json, id: string, at: int)

  function Attempts(n: nat, replies: seq<Reply>): (r: seq<(Event, int)>)
    ensures |r| == |replies|
  {
    seq(|replies|, k requires 0 <= k < |replies| =>
      (Attempting(n, true, replies[k].result, replies[k].id), replies[k].at))
  }

  ghost predicate AllHold(checks: seq<Check>, replies: seq<Reply>) {
    && |replies| <= |checks|
    && forall k :: 0 <= k < |replies| ==> Passes(true, replies[k].result, checks[k])
  }

  /** Task `n` verifies recovery of the incident; `done` of its checks are settled, and all of these passed. */
  predicate Recovering(b: Backend, n: nat, i: string, action: Option<string>, checks: seq<Check>, done: nat) {
    && i in b.incidents && n in b.tasks && b.tasks[n].Verify?
    && b.tasks[n].purpose == Recovery(action) && b.tasks[n].incident == i && b.tasks[n].checks == checks
    && b.tasks[n].attempts == 0 && |b.tasks[n].results| == done <= |checks|
    && forall r | r in b.tasks[n].results :: r.passed
  }

  lemma OnePasses(b: Backend, n: nat, i: string, action: Option<string>, checks: seq<Check>, done: nat, r: Reply)
    requires ActionsConsistent(b) && Recovering(b, n, i, action, checks, done) && done < |checks|
    requires Passes(true, r.result, checks[done])
    ensures var c := Attempt(b, n, true, r.result, r.id, r.at);
      c.actions == b.actions && Recovering(c, n, i, action, checks, done + 1)
  {
    AttemptExactly(b, n, true, r.result, r.id, r.at);
  }

  lemma {:induction false} AttemptsPass(settings: Settings, b: Backend, n: nat, i: string, action: Option<string>,
                                        checks: seq<Check>, replies: seq<Reply>)
    requires Invariant(settings, b) && Recovering(b, n, i, action, checks, 0) && AllHold(checks, replies)
    ensures var c := Continue(settings, b, Attempts(n, replies));
      c.actions == b.actions && Recovering(c, n, i, action, checks, |replies|)
  {
    if replies != [] {
      var last := |replies| - 1;
      var earlier := replies[..last];
      AttemptsPass(settings, b, n, i, action, checks, earlier);
      ContinueIsConsistent(settings, b, Attempts(n, earlier));
      AttemptsUnfold(settings, b, n, replies);
      OnePasses(Continue(settings, b, Attempts(n, earlier)), n, i, action, checks, last, replies[last]);
    }
  }

  lemma AttemptsUnfold(settings: Settings, b: Backend, n: nat, replies: seq<Reply>)
    requires replies != []
    ensures var last := |replies| - 1;
      Continue(settings, b, Attempts(n, replies))
      == Attempt(Continue(settings, b, Attempts(n, replies[..last])), n, true, replies[last].result, replies[last].id,
                 replies[last].at)
  {
    var last := |replies| - 1;
    var e := Attempting(n, true, replies[last].result, replies[last].id);
    assert Attempts(n, replies) == Attempts(n, replies[..last]) + [(e, replies[last].at)];
    ContinueOne(settings, b, Attempts(n, replies[..last]), e, replies[last].at);
  }

  /** Nothing of the incident is left to decide. */
  ghost predicate NothingPending(b: Backend, i: string) {
    forall x :: x in b.actions && b.actions[x].incident == i ==> !b.actions[x].approval.Pending?
  }

  /** The incident is resolved at this moment, with nothing left to decide, and the action passed. */
  ghost predicate Mended(c: Backend, i: string, action: Option<string>, end: int) {
    && i in c.incidents && c.incidents[i].status.Resolved? && c.incidents[i].resolvedAt == Some(end)
    && NothingPending(c, i)
    && (action.Some? ==> action.value in c.actions && c.actions[action.value].verdict.Passed?)
  }

  lemma RecoveryEnds(b: Backend, n: nat, i: string, action: Option<string>, checks: seq<Check>, now: int)
    requires ActionsConsistent(b) && Anchored(b) && Recovering(b, n, i, action, checks, |checks|) && checks != []
    requires !OfStop(b, b.tasks[n])
    ensures Mended(FinishVerification(b, n, now), i, action, now)
  {
    EndingExactly(b, n, i, now);
  }

  /** The events of a verification whose checks are all answered. */
  function Verification(i: string, action: Option<string>, n: nat, start: int, replies: seq<Reply>, end: int)
    : seq<(Event, int)>
  {
    [(Checking(i, action, n), start)] + Attempts(n, replies) + [(Finishing(n), end)]
  }

  lemma VerificationUnfolds(settings: Settings, b: Backend, i: string, action: Option<string>, n: nat, start: int,
                            replies: seq<Reply>, end: int)
    ensures Continue(settings, b, Verification(i, action, n, start, replies, end))
      == FinishVerification(
           Continue(settings, BeginVerification(settings, b, i, action, n), Attempts(n, replies)), n, end)
  {
    ContinueOne(settings, b, [(Checking(i, action, n), start)] + Attempts(n, replies), Finishing(n), end);
    BeginningFirst(settings, b, Checking(i, action, n), start, Attempts(n, replies));
  }

  lemma {:induction false} BeginningFirst(settings: Settings, b: Backend, e: Event, start: int,
                                          events: seq<(Event, int)>)
    ensures Continue(settings, b, [(e, start)] + events) == Continue(settings, Apply(settings, b, e, start), events)
  {
    if events == [] {
      assert [(e, start)] + events == [(e, start)];
      assert [(e, start)][..0] == [];
    } else {
      var last := |events| - 1;
      assert ([(e, start)] + events)[..|[(e, start)] + events| - 1] == [(e, start)] + events[..last];
      BeginningFirst(settings, b, e, start, events[..last]);
    }
  }

  /** The verification may begin, judges no stop, and every one of its checks gets a reply that passes it. */
  ghost predicate Shown(settings: Settings, b: Backend, i: string, action: Option<string>, n: nat,
                        replies: seq<Reply>)
  {
    && BeginsToVerify(settings, b, Checking(i, action, n))
    && (action.Some? ==> b.actions[action.value].tool !in {"stop_container", "stop_service"})
    && var checks := VerificationChecks(settings.topology, b.incidents[i].service, After(b, action)).value;
       AllHold(checks, replies) && |replies| == |checks|
  }

  /** What the attempts start from. */
  lemma ShownIsRecovering(settings: Settings, b: Backend, i: string, action: Option<string>, n: nat,
                          replies: seq<Reply>)
    returns (checks: seq<Check>)
    requires ActionsConsistent(b) && Shown(settings, b, i, action, n, replies)
    ensures Recovering(BeginVerification(settings, b, i, action, n), n, i, action, checks, 0) && checks != []
    ensures AllHold(checks, replies) && |replies| == |checks|
    ensures !OfStop(BeginVerification(settings, b, i, action, n), BeginVerification(settings, b, i, action, n).tasks[n])
  {
    checks := VerificationChecks(settings.topology, b.incidents[i].service, After(b, action)).value;
    BeginningExactly(settings, b, i, action, n);
    RecoveryHasChecks(settings, b, i, action);
  }

  lemma BegunKeeps(settings: Settings, b: Backend, i: string, action: Option<string>, n: nat)
    requires Invariant(settings, b)
    ensures Invariant(settings, BeginVerification(settings, b, i, action, n)) && ActionsConsistent(b)
  {
    BeginVerificationStep(settings, b, i, action, n);
  }

  lemma AttemptsMend(settings: Settings, begun: Backend, n: nat, i: string, action: Option<string>,
                     checks: seq<Check>, replies: seq<Reply>, end: int)
    requires Invariant(settings, begun) && Recovering(begun, n, i, action, checks, 0) && checks != []
    requires AllHold(checks, replies) && |replies| == |checks| && !OfStop(begun, begun.tasks[n])
    ensures Mended(FinishVerification(Continue(settings, begun, Attempts(n, replies)), n, end), i, action, end)
  {
    AttemptsPass(settings, begun, n, i, action, checks, replies);
    ContinueIsConsistent(settings, begun, Attempts(n, replies));
    RecoveryEnds(Continue(settings, begun, Attempts(n, replies)), n, i, action, checks, end);
  }

  /** After every run in which a verification may begin, for no action or for a start or a restart: once it begins,
      one successful reply to each of its checks in which every expected path leads to its value, and its end,
      resolve the incident at that moment, leave nothing of it to decide, and judge the action as passed. */
  lemma RecoveryIsFound(settings: Settings, before: seq<(Event, int)>, i: string, action: Option<string>, n: nat,
                        start: int, replies: seq<Reply>, end: int)
    requires Shown(settings, Runs.Replay(settings, before), i, action, n, replies)
    ensures Mended(Runs.Replay(settings, before + Verification(i, action, n, start, replies, end)), i, action, end)
  {
    var b := Runs.Replay(settings, before);
    ContinuesTheRun(settings, before, Verification(i, action, n, start, replies, end));
    VerificationUnfolds(settings, b, i, action, n, start, replies, end);
    Runs.RunsKeepTheInvariant(settings, before);
    BegunKeeps(settings, b, i, action, n);
    var checks := ShownIsRecovering(settings, b, i, action, n, replies);
    AttemptsMend(settings, BeginVerification(settings, b, i, action, n), n, i, action, checks, replies, end);
  }

  lemma RecoveryHasChecks(settings: Settings, b: Backend, i: string, action: Option<string>)
    requires ActionsConsistent(b) && i in b.incidents
    requires action.Some? ==>
      action.value in b.actions && b.actions[action.value].tool !in {"stop_container", "stop_service"}
    requires VerificationChecks(settings.topology, b.incidents[i].service, After(b, action)).Ok?
    ensures VerificationChecks(settings.topology, b.incidents[i].service, After(b, action)).value != []
  {
    if action.Some? { StopsExactly(b.actions[action.value].tool); }
    RecoveryChecksAreReachableChecks(settings.topology, b.incidents[i].service, After(b, action));
  }
}
