/** What holds over every run of the write protocol: any interleaving of agents, operators and
    attackers, any loss, delay and repetition of messages, any restart of either side. */
module ProtocolRuns {
  import opened JsonValues
  import opened JsonText
  import opened Canonical
  import opened Records
  import opened Tools
  import opened Incidents
  import opened IncidentInvariants
  import opened Ledger
  import opened Protocol
  import Runs = IncidentRuns
  import Scopes

  function Initial(now: nat): System {
    System(Runs.EMPTY, now, {}, {}, map[], map[], [])
  }

  function Reached(w: World, start: nat, moves: seq<Move>): System {
    if moves == [] then Initial(start)
    else Next(w, Reached(w, start, moves[..|moves| - 1]), moves[|moves| - 1])
  }

  lemma {:induction false} ReachedIsSafe(w: World, start: nat, moves: seq<Move>)
    ensures Safe(w, Reached(w, start, moves))
  {
    if moves == [] {
      Runs.RunsKeepTheInvariant(w.settings, []);
    } else {
      var s := Reached(w, start, moves[..|moves| - 1]);
      ReachedIsSafe(w, start, moves[..|moves| - 1]);
      NextKeepsBackend(w, s, moves[|moves| - 1]);
      NextKeepsGateway(w, s, moves[|moves| - 1]);
    }
  }

  lemma OthersLeaveRows(w: World, s: System, m: Move)
    requires !m.Work? && !m.Send?
    ensures Next(w, s, m).backend == s.backend
  {
  }

  lemma WorkEvolves(w: World, s: System, e: Event)
    requires Invariant(w.settings, s.backend)
    ensures Evolves(s.backend, Next(w, s, Work(e)).backend)
  {
    if Generated(e) { Runs.ApplyStep(w.settings, s.backend, e, s.now); }
  }

  lemma NextEvolves(w: World, s: System, m: Move)
    requires Invariant(w.settings, s.backend)
    ensures Evolves(s.backend, Next(w, s, m).backend)
  {
    match m
    case Work(e) => WorkEvolves(w, s, e);
    case Send(n) => MarkSentStep(w.settings, s.backend, n);
    case _ => OthersLeaveRows(w, s, m);
  }

  lemma {:induction false} ReachedEvolves(w: World, start: nat, moves: seq<Move>, k: nat)
    requires k <= |moves|
    ensures Evolves(Reached(w, start, moves[..k]).backend, Reached(w, start, moves).backend)
  {
    if k == |moves| {
      assert moves[..k] == moves;
    } else {
      var before := moves[..|moves| - 1];
      assert before[..k] == moves[..k];
      ReachedEvolves(w, start, before, k);
      ReachedIsSafe(w, start, before);
      NextEvolves(w, Reached(w, start, before), moves[|moves| - 1]);
      EvolvesTransitively(Reached(w, start, moves[..k]).backend, Reached(w, start, before).backend,
        Reached(w, start, moves).backend);
    }
  }

  /** Each action id reaches the host's handlers at most once. */
  lemma AtMostOnce(w: World, start: nat, moves: seq<Move>, i: nat, j: nat)
    requires i < j < |Reached(w, start, moves).host|
    ensures Reached(w, start, moves).host[i].id != Reached(w, start, moves).host[j].id
  {
    ReachedIsSafe(w, start, moves);
    assert ExecutedOnce(Reached(w, start, moves));
  }

  /** The durable claim behind an execution: the same tool, the same arguments up to field order. */
  predicate ClaimedAs(b: Backend, x: Execution) {
    && x.id in b.actions
    && var a := b.actions[x.id];
       && a.executed && a.approval in {Approved, AutoAuthorized} && a.tool == x.tool
       && CanonicalArguments(a.arguments) == CanonicalArguments(JObj(x.arguments))
  }

  /** What ran was consumed first, inside its signature's lifetime, and was claimed before that with
      the same tool and arguments; and it is a write that the gateway's allowlists admit. */
  lemma ExecutionsWereClaimed(w: World, start: nat, moves: seq<Move>, x: Execution)
    requires x in Reached(w, start, moves).host
    ensures var s := Reached(w, start, moves);
      && ClaimedAs(s.backend, x) && Scoped(w, x)
      && x.id in s.ledger && s.ledger[x.id].tool == x.tool
      && exists m :: m in s.signed && Says(m, x) && Consumed(s.ledger[x.id], m)
  {
    ReachedIsSafe(w, start, moves);
    var s := Reached(w, start, moves);
    var i :| 0 <= i < |s.host| && s.host[i] == x;
    assert Traced(s, x) && Scoped(w, x);
    var m :| m in s.signed && Says(m, x);
    var k :| k in s.signed && k.id == x.id && Consumed(s.ledger[x.id], k);
    SignedIsClaimed(w, s, m, x);
    SameSignature(s, m, k);
  }

  lemma SameSignature(s: System, m: Signed, k: Signed)
    requires SignedOnce(s) && m in s.signed && k in s.signed && m.id == k.id
    ensures m == k
  {
  }

  lemma SignedIsClaimed(w: World, s: System, m: Signed, x: Execution)
    requires BackendSafe(w, s) && m in s.signed && Says(m, x)
    ensures ClaimedAs(s.backend, x)
  {
    assert SignedClaim(s, m);
    CanonicalTextInjective(m.arguments, JObj(x.arguments));
  }

  /** An approval that was refused or left undecided has not run, and a refused one never will: a
      rejected or expired action is absent from the host at every later point of the run. */
  lemma RefusedNeverRuns(w: World, start: nat, moves: seq<Move>, k: nat, a: string, x: Execution)
    requires k <= |moves| && a in Reached(w, start, moves[..k]).backend.actions
    requires Reached(w, start, moves[..k]).backend.actions[a].approval in {Rejected, Expired}
    requires x in Reached(w, start, moves).host
    ensures x.id != a
  {
    if x.id == a {
      ExecutionsWereClaimed(w, start, moves, x);
      ReachedEvolves(w, start, moves, k);
      RefusalLasts(Reached(w, start, moves[..k]).backend, Reached(w, start, moves).backend, a);
    }
  }

  lemma RefusalLasts(b: Backend, c: Backend, a: string)
    requires Evolves(b, c) && a in b.actions && b.actions[a].approval in {Rejected, Expired}
    ensures a in c.actions && c.actions[a].approval == b.actions[a].approval
  {
    assert ActionMoves(b.actions[a], c.actions[a]);
  }

  /** Nothing runs before it was approved or authorized: at any point, what has run is claimed. */
  lemma UndecidedHasNotRun(w: World, start: nat, moves: seq<Move>, a: string, x: Execution)
    requires a in Reached(w, start, moves).backend.actions
      && Reached(w, start, moves).backend.actions[a].approval.Pending?
    requires x in Reached(w, start, moves).host
    ensures x.id != a
  {
    ExecutionsWereClaimed(w, start, moves, x);
  }

  /** The backend never signs the same action twice, whatever is retried or restarted. */
  lemma SignedAtMostOnce(w: World, start: nat, moves: seq<Move>, m: Signed, m': Signed)
    requires m in Reached(w, start, moves).signed && m' in Reached(w, start, moves).signed && m.id == m'.id
    ensures m == m'
  {
    ReachedIsSafe(w, start, moves);
  }

  /** What the agent ran by itself was justified when it was claimed. */
  lemma AutonomousExecutionsWereJustified(w: World, start: nat, moves: seq<Move>, x: Execution)
    requires x in Reached(w, start, moves).host
    ensures var b := Reached(w, start, moves).backend;
      && x.id in b.actions && b.actions[x.id].incident in b.incidents
      && (b.actions[x.id].requiresApproval
         || Justified(w.settings, b.incidents[b.actions[x.id].incident], b.actions[x.id]))
      && (b.actions[x.id].requiresApproval ==> b.actions[x.id].approval.Approved?)
  {
    ReachedIsSafe(w, start, moves);
    ExecutionsWereClaimed(w, start, moves, x);
  }

  // --- A claimed write gets through ---

  /** Task `n` still has to send its claimed write; both sides hold one long secret, and the registry, the
      gateway's switch, the form of the arguments and the allowlists are in order. */
  predicate Ready(w: World, s: System, n: nat) {
    && n in s.backend.tasks && Unsent(s.backend.tasks[n]) && s.backend.tasks[n].action in s.backend.actions
    && w.backendSecret == w.gateway.secret && |w.gateway.secret| >= 32 && w.gateway.writesEnabled
    && var a := s.backend.actions[s.backend.tasks[n].action];
       && Permitted(w.settings, a.tool, a.arguments, true) && a.arguments.JObj?
       && WriteArguments(a.tool, a.arguments.fields)
       && Scopes.InScope(w.gateway.scopes, a.tool, a.arguments.fields)
  }

  /** The request is on the wire, signed for the action as its row has it, and good for 120 seconds from `at`. */
  predicate OnItsWay(w: World, s: System, r: Request, at: nat) {
    && r in s.wire && r.expires == Digits(at + SIGNATURE_SECONDS)
    && r.signature == Sign(w.gateway.secret, r.id, r.tool, JObj(r.arguments), r.expires)
  }

  lemma SendsTheClaim(w: World, s: System, n: nat) returns (r: Request)
    requires BackendSafe(w, s) && Ready(w, s, n)
    ensures var id := s.backend.tasks[n].action;
      r.id == id && r.tool == s.backend.actions[id].tool && JObj(r.arguments) == s.backend.actions[id].arguments
    ensures OnItsWay(w, Next(w, s, Send(n)), r, s.now) && Next(w, s, Send(n)).now == s.now
    ensures ActionId(r.id) && r.tool in WRITE_TOOLS
  {
    var id := s.backend.tasks[n].action;
    var a := s.backend.actions[id];
    var expires := Digits(s.now + SIGNATURE_SECONDS);
    r := Request(id, a.tool, a.arguments.fields, expires, Sign(w.backendSecret, id, a.tool, a.arguments, expires));
    ReadyIsSendable(w, s, n);
    SendableIsSent(w, s, n, r);
  }

  lemma ReadyIsSendable(w: World, s: System, n: nat)
    requires BackendSafe(w, s) && Ready(w, s, n)
    ensures Sendable(w, s.backend.actions[s.backend.tasks[n].action])
    ensures s.backend.actions[s.backend.tasks[n].action].tool in WRITE_TOOLS && ActionId(s.backend.tasks[n].action)
  {
    assert TaskSound(w.settings, s.backend, s.backend.tasks[n]);
  }

  lemma SendableIsSent(w: World, s: System, n: nat, r: Request)
    requires n in s.backend.tasks && Unsent(s.backend.tasks[n]) && s.backend.tasks[n].action in s.backend.actions
    requires Sendable(w, s.backend.actions[s.backend.tasks[n].action])
    requires var id, expires := s.backend.tasks[n].action, Digits(s.now + SIGNATURE_SECONDS);
      var a := s.backend.actions[id];
      r == Request(id, a.tool, a.arguments.fields, expires, Sign(w.backendSecret, id, a.tool, a.arguments, expires))
    ensures r in Next(w, s, Send(n)).wire && Next(w, s, Send(n)).now == s.now
    ensures Next(w, s, Send(n)).ledger == s.ledger
  {
  }

  /** Messages stay on the wire, and time does not run back. */
  lemma {:induction false} WireGrows(w: World, start: nat, moves: seq<Move>, k: nat)
    requires k <= |moves|
    ensures Reached(w, start, moves[..k]).wire <= Reached(w, start, moves).wire
    ensures Reached(w, start, moves[..k]).now <= Reached(w, start, moves).now
  {
    if k == |moves| {
      assert moves[..k] == moves;
    } else {
      var before := moves[..|moves| - 1];
      assert before[..k] == moves[..k];
      WireGrows(w, start, before, k);
      NextGrows(w, Reached(w, start, before), moves[|moves| - 1]);
    }
  }

  lemma NextGrows(w: World, s: System, m: Move)
    ensures s.wire <= Next(w, s, m).wire && s.now <= Next(w, s, m).now
  {
  }

  lemma OnItsWayIsAdmitted(w: World, s: System, r: Request, at: nat)
    requires OnItsWay(w, s, r, at) && at <= s.now < at + SIGNATURE_SECONDS && r.id !in s.ledger
    requires ActionId(r.id) && r.tool in WRITE_TOOLS && WriteArguments(r.tool, r.arguments)
    requires |w.gateway.secret| >= 32 && w.gateway.writesEnabled
    requires Scopes.InScope(w.gateway.scopes, r.tool, r.arguments)
    ensures Admitted(w, s, r)
  {
    HonestRequestIsConsumed(s.ledger, w.gateway.secret, r.id, r.tool, r.arguments, r.arguments, at, s.now);
  }

  lemma AdmittedRuns(w: World, s: System, r: Request)
    requires Admitted(w, s, r)
    ensures Next(w, Next(w, s, Deliver(r)), Run(r.id)).host == s.host + [Execution(r.id, r.tool, r.arguments)]
  {
    AdmittedIsDelivered(w, s, r);
    RunningRuns(w, Consume(s, r), r.id);
  }

  lemma AdmittedIsDelivered(w: World, s: System, r: Request)
    requires Admitted(w, s, r)
    ensures Next(w, s, Deliver(r)) == Consume(s, r)
  {
  }

  lemma RunningRuns(w: World, s: System, id: string)
    requires id in s.running
    ensures Next(w, s, Run(id)).host == s.host + [s.running[id]]
  {
  }

  /** From any reached state in which a claimed write is ready to be sent, whatever happens after it is sent:
      while its 120 seconds last and the id was not consumed, the gateway admits the very request that was
      sent, and delivering and running it executes the tool and arguments of the claimed row. */
  lemma ClaimedWriteGetsThrough(w: World, start: nat, moves: seq<Move>, n: nat, later: seq<Move>) returns (r: Request)
    requires Ready(w, Reached(w, start, moves), n)
    ensures r in Next(w, Reached(w, start, moves), Send(n)).wire
    ensures r.id == Reached(w, start, moves).backend.tasks[n].action
    ensures var s, s' := Reached(w, start, moves), Reached(w, start, moves + [Send(n)] + later);
      s'.now < s.now + SIGNATURE_SECONDS && r.id !in s'.ledger ==>
        && Admitted(w, s', r)
        && var a := s.backend.actions[r.id];
           Next(w, Next(w, s', Deliver(r)), Run(r.id)).host == s'.host + [Execution(r.id, a.tool, a.arguments.fields)]
  {
    var s, all := Reached(w, start, moves), moves + [Send(n)] + later;
    ReachedIsSafe(w, start, moves);
    r := SendsTheClaim(w, s, n);
    SentState(w, start, moves, n, later);
    WireGrows(w, start, all, |moves| + 1);
    var s' := Reached(w, start, all);
    if s'.now < s.now + SIGNATURE_SECONDS && r.id !in s'.ledger {
      OnItsWayIsAdmitted(w, s', r, s.now);
      AdmittedRuns(w, s', r);
    }
  }

  lemma SentState(w: World, start: nat, moves: seq<Move>, n: nat, later: seq<Move>)
    ensures var all := moves + [Send(n)] + later;
      Reached(w, start, all[..|moves| + 1]) == Next(w, Reached(w, start, moves), Send(n))
  {
    var all := moves + [Send(n)] + later;
    assert all[..|moves| + 1] == moves + [Send(n)];
    assert (moves + [Send(n)])[..|moves|] == moves;
  }

  /** What was never sent was never consumed. */
  lemma UnsentIsUnconsumed(w: World, s: System, n: nat)
    requires Safe(w, s) && n in s.backend.tasks && Unsent(s.backend.tasks[n])
    ensures s.backend.tasks[n].action !in s.ledger
  {
  }

  /** Sent and delivered within 120 seconds, the claimed write runs: it is the next thing that the host does. */
  lemma PromptWriteRuns(w: World, start: nat, moves: seq<Move>, n: nat, d: nat) returns (r: Request)
    requires Ready(w, Reached(w, start, moves), n) && d < SIGNATURE_SECONDS
    ensures r in Next(w, Reached(w, start, moves), Send(n)).wire
    ensures var s, s' := Reached(w, start, moves), Reached(w, start, moves + [Send(n)] + [Tick(d)]);
      var id, a := s.backend.tasks[n].action, s.backend.actions[s.backend.tasks[n].action];
      Next(w, Next(w, s', Deliver(r)), Run(id)).host == s.host + [Execution(id, a.tool, a.arguments.fields)]
  {
    r := ClaimedWriteGetsThrough(w, start, moves, n, [Tick(d)]);
    Waited(w, start, moves, n, d);
  }

  lemma Waited(w: World, start: nat, moves: seq<Move>, n: nat, d: nat)
    requires Ready(w, Reached(w, start, moves), n)
    ensures var s, s' := Reached(w, start, moves), Reached(w, start, moves + [Send(n)] + [Tick(d)]);
      s'.now == s.now + d && s'.host == s.host && s.backend.tasks[n].action !in s'.ledger
  {
    var s := Reached(w, start, moves);
    ReachedIsSafe(w, start, moves);
    UnsentIsUnconsumed(w, s, n);
    assert (moves + [Send(n)] + [Tick(d)])[..|moves| + 1] == moves + [Send(n)];
    assert (moves + [Send(n)])[..|moves|] == moves;
    SendAndWait(w, s, n, d);
  }

  lemma SendAndWait(w: World, s: System, n: nat, d: nat)
    ensures var s' := Next(w, Next(w, s, Send(n)), Tick(d));
      s'.now == s.now + d && s'.ledger == s.ledger && s'.host == s.host
  {
  }
}
