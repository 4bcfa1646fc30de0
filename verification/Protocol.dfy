/** The whole write protocol: the backend with its rows and tasks, a network that loses, delays,
    repeats and invents messages, and the gateway with its ledger, each restarting at any time. */
module Protocol {
  import opened JsonValues
  import opened JsonText
  import opened Canonical
  import opened Records
  import opened Tools
  import opened Incidents
  import opened IncidentInvariants
  import opened Ledger
  import Scopes
  import Runs = IncidentRuns

  /** One signature the backend made. */
  datatype Signed = Signed(id: string, tool: string, arguments: Json, expires: string, at: nat)

  datatype World = World(settings: Settings, backendSecret: string, gateway: GatewayConfig)

  datatype System = System(
    backend: Backend, now: nat,
    wire: set<Request>, signed: set<Signed>,
    ledger: map<string, Row>, running: map<string, Execution>, host: seq<Execution>)

  datatype Move =
    | Work(e: Event)
    | Send(n: nat)
    | Inject(r: Request)
    | Deliver(r: Request)
    | Run(id: string)
    | Respond(id: string, result: Json)
    | RestartGateway
    | Tick(d: nat)

  const SIGNATURE_SECONDS: nat := 120

  function MessageOf(m: Signed): string {
    Message(m.id, m.tool, m.arguments, m.expires)
  }

  predicate Sendable(w: World, a: Action) {
    && Permitted(w.settings, a.tool, a.arguments, true) && IsWrite(a.tool) && a.arguments.JObj?
    && a.approval in {Approved, AutoAuthorized} && w.backendSecret != ""
  }

  /** The event may run as it is: new action ids are generated UUIDs. */
  predicate Generated(e: Event) {
    && !e.Sending?
    && (e.Proposal? ==> ActionId(e.a)) && (e.AutonomousClaim? ==> ActionId(e.a))
  }

  /** DiagnosticGateway.execute signs once per claimed dispatch, and the request goes out. */
  function SendNow(w: World, s: System, n: nat): System {
    var b := s.backend;
    if n !in b.tasks || !b.tasks[n].Dispatch? || b.tasks[n].sent || b.tasks[n].action !in b.actions then s
    else
      var id := b.tasks[n].action;
      var a := b.actions[id];
      if !Sendable(w, a) then s
      else
        var expires := Digits(s.now + SIGNATURE_SECONDS);
        s.(backend := MarkSent(b, n),
           signed := s.signed + {Signed(id, a.tool, a.arguments, expires, s.now)},
           wire := s.wire + {Request(id, a.tool, a.arguments.fields, expires,
             Sign(w.backendSecret, id, a.tool, a.arguments, expires))})
  }

  /** Anyone may send anything, but nobody else knows the gateway's secret. */
  predicate Forgeable(w: World, s: System, r: Request) {
    r.signature.Mac? && r.signature.secret == w.gateway.secret ==>
      exists m | m in s.signed :: MessageOf(m) == r.signature.message
  }

  predicate Admitted(w: World, s: System, r: Request) {
    && r in s.wire && r.tool in WRITE_TOOLS && WriteArguments(r.tool, r.arguments)
    && Refusal(w.gateway, s.ledger, r, s.now).None?
  }

  /** The approval is consumed, and only then the handler starts. */
  function Consume(s: System, r: Request): System {
    s.(ledger := s.ledger[r.id := Row(r.tool, s.now, None)],
      running := s.running[r.id := Execution(r.id, r.tool, r.arguments)])
  }

  function Next(w: World, s: System, m: Move): System {
    match m
    case Work(e) => if Generated(e) then s.(backend := Apply(w.settings, s.backend, e, s.now)) else s
    case Send(n) => SendNow(w, s, n)
    case Inject(r) => if Forgeable(w, s, r) then s.(wire := s.wire + {r}) else s
    case Deliver(r) => if Admitted(w, s, r) then Consume(s, r) else s
    case Run(id) => if id in s.running then s.(host := s.host + [s.running[id]], running := s.running - {id}) else s
    case Respond(id, result) =>
      if id in s.ledger then s.(ledger := s.ledger[id := s.ledger[id].(result := Some(result))]) else s
    case RestartGateway => s.(running := map[])
    case Tick(d) => s.(now := s.now + d)
  }

  // --- The invariant ---

  ghost predicate IdsGenerated(s: System) {
    forall a :: a in s.backend.actions ==> ActionId(a)
  }

  /** Every signature is of a claimed action, exactly as its row has it. */
  predicate SignedClaim(s: System, m: Signed) {
    && m.id in s.backend.actions && m.at <= s.now && m.expires == Digits(m.at + SIGNATURE_SECONDS)
    && var a := s.backend.actions[m.id]; a.executed && a.tool == m.tool && a.arguments == m.arguments && IsWrite(m.tool)
  }

  ghost predicate SignaturesClaimed(s: System) {
    forall m :: m in s.signed ==> SignedClaim(s, m)
  }

  ghost predicate WireHonest(w: World, s: System) {
    forall r :: r in s.wire ==> Forgeable(w, s, r)
  }

  predicate Consumed(row: Row, m: Signed) {
    row.tool == m.tool && m.at <= row.consumedAt < m.at + SIGNATURE_SECONDS
  }

  ghost predicate LedgerSigned(s: System) {
    forall id :: id in s.ledger ==> exists m :: m in s.signed && m.id == id && Consumed(s.ledger[id], m)
  }

  predicate Says(m: Signed, x: Execution) {
    m.id == x.id && m.tool == x.tool && Canon(m.arguments) == Canon(JObj(x.arguments))
  }

  /** What runs was consumed, and is what some signature says. */
  ghost predicate Traced(s: System, x: Execution) {
    x.id in s.ledger && s.ledger[x.id].tool == x.tool && exists m :: m in s.signed && Says(m, x)
  }

  ghost predicate ExecutionsTraced(s: System) {
    && (forall id :: id in s.running ==> s.running[id].id == id && Traced(s, s.running[id]))
    && (forall i :: 0 <= i < |s.host| ==> Traced(s, s.host[i]))
  }

  predicate Scoped(w: World, x: Execution) {
    x.tool in WRITE_TOOLS && Scopes.InScope(w.gateway.scopes, x.tool, x.arguments)
  }

  /** What runs is a write inside the gateway's allowlists. */
  ghost predicate ExecutionsScoped(w: World, s: System) {
    && (forall id :: id in s.running ==> Scoped(w, s.running[id]))
    && (forall i :: 0 <= i < |s.host| ==> Scoped(w, s.host[i]))
  }

  ghost predicate ExecutedOnce(s: System) {
    && (forall i, j :: 0 <= i < j < |s.host| ==> s.host[i].id != s.host[j].id)
    && (forall i :: 0 <= i < |s.host| ==> s.host[i].id !in s.running)
  }

  predicate Unsent(t: Task) {
    t.Dispatch? && !t.sent
  }

  predicate SameDispatch(t: Task, u: Task) {
    Unsent(t) && Unsent(u) && t.action == u.action
  }

  /** A claim is signed at most once: what is still to be sent was never signed, and is sent by one task. */
  ghost predicate SignedOnce(s: System) {
    && (forall m, m' :: m in s.signed && m' in s.signed && m.id == m'.id ==> m == m')
    && (forall n, m :: n in s.backend.tasks && Unsent(s.backend.tasks[n]) && m in s.signed ==>
       m.id != s.backend.tasks[n].action)
    && (forall n, k :: n in s.backend.tasks && k in s.backend.tasks && n != k ==>
       !SameDispatch(s.backend.tasks[n], s.backend.tasks[k]))
  }

  /** What is kept about the backend and its signatures. */
  ghost predicate BackendSafe(w: World, s: System) {
    Invariant(w.settings, s.backend) && IdsGenerated(s) && SignaturesClaimed(s) && SignedOnce(s)
  }

  /** What is kept about the network, the ledger and the host. */
  ghost predicate GatewaySafe(w: World, s: System) {
    WireHonest(w, s) && LedgerSigned(s) && ExecutionsTraced(s) && ExecutionsScoped(w, s) && ExecutedOnce(s)
  }

  ghost predicate Safe(w: World, s: System) {
    BackendSafe(w, s) && GatewaySafe(w, s)
  }

  // --- Steps of the backend ---

  /** Actions and unsent dispatches come only from a proposal or a claim, and a claim is of an action
      that was not claimed before. */
  ghost predicate OnlyFrom(b: Backend, c: Backend, e: Event) {
    && (forall a :: a in c.actions ==> a in b.actions || ((e.Proposal? || e.AutonomousClaim?) && a == e.a))
    && (forall n :: n in c.tasks && Unsent(c.tasks[n]) ==>
        || (n in b.tasks && b.tasks[n] == c.tasks[n])
        || ((e.Approving? || e.AutonomousClaim?) && n == e.n && c.tasks[n].action == e.a
            && (e.a in b.actions ==> !b.actions[e.a].executed)))
  }

  lemma AgentOnlyFrom(settings: Settings, b: Backend, e: Event, now: int)
    requires e.Creation? || e.Claim? || e.Start? || e.Observing? || e.Diagnosis? || e.Proposal? || e.Conclusion?
      || e.Failure?
    ensures OnlyFrom(b, Apply(settings, b, e, now), e)
  {
  }

  lemma OperatorOnlyFrom(settings: Settings, b: Backend, e: Event, now: int)
    requires e.Approving? || e.Settling? || e.Rejecting? || e.Checking?
    ensures OnlyFrom(b, Apply(settings, b, e, now), e)
  {
  }

  lemma VerificationOnlyFrom(settings: Settings, b: Backend, e: Event, now: int)
    requires e.Attempting? || e.Finishing? || e.AutonomousFinishing?
    ensures OnlyFrom(b, Apply(settings, b, e, now), e)
  {
  }

  lemma OtherOnlyFrom(settings: Settings, b: Backend, e: Event, now: int)
    requires e.AutonomousClaim? || e.AutonomousSettling? || e.Abandoning? || e.Restarting?
    ensures OnlyFrom(b, Apply(settings, b, e, now), e)
  {
  }

  lemma AllOnlyFrom(settings: Settings, b: Backend, e: Event, now: int)
    requires !e.Sending?
    ensures OnlyFrom(b, Apply(settings, b, e, now), e)
  {
    if e.Approving? || e.Settling? || e.Rejecting? || e.Checking? { OperatorOnlyFrom(settings, b, e, now); }
    else if e.Attempting? || e.Finishing? || e.AutonomousFinishing? { VerificationOnlyFrom(settings, b, e, now); }
    else if e.AutonomousClaim? || e.AutonomousSettling? || e.Abandoning? || e.Restarting? {
      OtherOnlyFrom(settings, b, e, now);
    }
    else { AgentOnlyFrom(settings, b, e, now); }
  }

  /** A claimed action stays claimed, with the same tool and arguments. */
  lemma ClaimsLast(b: Backend, c: Backend, a: string)
    requires Evolves(b, c) && ActionsConsistent(b) && a in b.actions && b.actions[a].executed
    ensures a in c.actions && c.actions[a].executed
    ensures c.actions[a].tool == b.actions[a].tool && c.actions[a].arguments == b.actions[a].arguments
  {
    assert ActionMoves(b.actions[a], c.actions[a]);
  }

  lemma WorkSignatures(s: System, c: Backend)
    requires SignaturesClaimed(s) && Evolves(s.backend, c) && ActionsConsistent(s.backend)
    ensures SignaturesClaimed(s.(backend := c))
  {
    forall m | m in s.signed ensures SignedClaim(s.(backend := c), m) {
      assert SignedClaim(s, m);
      ClaimsLast(s.backend, c, m.id);
    }
  }

  lemma WorkSignsNothing(settings: Settings, s: System, c: Backend, e: Event)
    requires SignedOnce(s) && SignaturesClaimed(s) && TasksSound(settings, s.backend) && OnlyFrom(s.backend, c, e)
    ensures SignedOnce(s.(backend := c))
  {
    var b := s.backend;
    forall n, m | n in c.tasks && Unsent(c.tasks[n]) && m in s.signed ensures m.id != c.tasks[n].action {
      assert SignedClaim(s, m);
    }
    forall n, k | n in c.tasks && k in c.tasks && n != k ensures !SameDispatch(c.tasks[n], c.tasks[k]) {
      if n in b.tasks { assert TaskSound(settings, b, b.tasks[n]); }
      if k in b.tasks { assert TaskSound(settings, b, b.tasks[k]); }
    }
  }

  lemma WorkKeeps(w: World, s: System, e: Event)
    requires BackendSafe(w, s) && Generated(e)
    ensures BackendSafe(w, Next(w, s, Work(e)))
  {
    var b, c := s.backend, Apply(w.settings, s.backend, e, s.now);
    Runs.ApplyStep(w.settings, b, e, s.now);
    AllOnlyFrom(w.settings, b, e, s.now);
    WorkSignatures(s, c);
    WorkSignsNothing(w.settings, s, c, e);
  }

  /** What was traced stays traced while signatures and rows are only added. */
  lemma StillTraced(s: System, s': System, x: Execution)
    requires Traced(s, x) && s.signed <= s'.signed && x.id in s'.ledger && s'.ledger[x.id].tool == s.ledger[x.id].tool
    ensures Traced(s', x)
  {
  }

  lemma StillConsumed(s: System, s': System, id: string)
    requires LedgerSigned(s) && s.signed <= s'.signed && id in s.ledger && id in s'.ledger
    requires s'.ledger[id].tool == s.ledger[id].tool && s'.ledger[id].consumedAt == s.ledger[id].consumedAt
    ensures exists m :: m in s'.signed && m.id == id && Consumed(s'.ledger[id], m)
  {
    var m :| m in s.signed && m.id == id && Consumed(s.ledger[id], m);
    assert m in s'.signed && Consumed(s'.ledger[id], m);
  }

  lemma StillForgeable(w: World, s: System, s': System, r: Request)
    requires Forgeable(w, s, r) && s.signed <= s'.signed
    ensures Forgeable(w, s', r)
  {
  }

  /** What the gateway did does not depend on the backend's rows, and survives more signatures. */
  lemma GatewayUntouched(w: World, s: System, s': System)
    requires s' == s.(backend := s'.backend, signed := s'.signed, now := s'.now) && s.signed <= s'.signed
    requires GatewaySafe(w, s)
    ensures GatewaySafe(w, s')
  {
    forall x: Execution | Traced(s, x) ensures Traced(s', x) { StillTraced(s, s', x); }
    forall id | id in s'.ledger ensures exists m :: m in s'.signed && m.id == id && Consumed(s'.ledger[id], m) {
      StillConsumed(s, s', id);
    }
    forall r | r in s'.wire ensures Forgeable(w, s', r) { StillForgeable(w, s, s', r); }
  }

  // --- Signing ---

  lemma SendSigns(w: World, s: System, n: nat)
    requires SignaturesClaimed(s) && TasksSound(w.settings, s.backend)
    ensures SignaturesClaimed(SendNow(w, s, n))
  {
    var s' := SendNow(w, s, n);
    if s' != s {
      assert TaskSound(w.settings, s.backend, s.backend.tasks[n]);
      forall m | m in s'.signed ensures SignedClaim(s', m) {
        if m in s.signed { assert SignedClaim(s, m); }
      }
    }
  }

  lemma SendSignsOnce(w: World, s: System, n: nat)
    requires SignedOnce(s)
    ensures SignedOnce(SendNow(w, s, n))
  {
    var s' := SendNow(w, s, n);
    if s' != s {
      forall k | k in s'.backend.tasks && Unsent(s'.backend.tasks[k])
        ensures k != n && k in s.backend.tasks && s'.backend.tasks[k] == s.backend.tasks[k]
        ensures s.backend.tasks[k].action != s.backend.tasks[n].action
      {
        assert !SameDispatch(s.backend.tasks[k], s.backend.tasks[n]);
      }
    }
  }

  lemma SendKeepsBackend(w: World, s: System, n: nat)
    requires BackendSafe(w, s)
    ensures BackendSafe(w, SendNow(w, s, n))
  {
    SendSigns(w, s, n);
    SendSignsOnce(w, s, n);
    MarkSentStep(w.settings, s.backend, n);
  }

  lemma SendKeepsGateway(w: World, s: System, n: nat)
    requires GatewaySafe(w, s)
    ensures GatewaySafe(w, SendNow(w, s, n))
  {
    var s' := SendNow(w, s, n);
    if s' != s {
      GatewayUntouched(w, s, s'.(wire := s.wire));
      var id := s.backend.tasks[n].action;
      var a := s.backend.actions[id];
      AddedToWire(w, s'.(wire := s.wire), Request(id, a.tool, a.arguments.fields, Digits(s.now + SIGNATURE_SECONDS),
        Sign(w.backendSecret, id, a.tool, a.arguments, Digits(s.now + SIGNATURE_SECONDS))));
    }
  }

  lemma AddedToWire(w: World, s: System, r: Request)
    requires GatewaySafe(w, s) && Forgeable(w, s, r)
    ensures GatewaySafe(w, s.(wire := s.wire + {r}))
  {
    var s' := s.(wire := s.wire + {r});
    forall q | q in s'.wire ensures Forgeable(w, s', q) { StillForgeable(w, s, s', q); }
    forall x: Execution | Traced(s, x) ensures Traced(s', x) { StillTraced(s, s', x); }
  }

  // --- Steps of the gateway ---

  lemma WritesAreColonFree(tool: string)
    requires IsWrite(tool)
    ensures ColonFree(tool)
  {
  }

  /** What the gateway admits is what the backend signed, within the signature's lifetime. */
  lemma AdmittedIsSigned(w: World, s: System, r: Request) returns (m: Signed)
    requires SignaturesClaimed(s) && WireHonest(w, s) && IdsGenerated(s) && Admitted(w, s, r)
    ensures m in s.signed && Says(m, Execution(r.id, r.tool, r.arguments))
    ensures r.id !in s.ledger && m.at <= s.now < m.at + SIGNATURE_SECONDS
  {
    AdmittedIsAccepted(w, s, r);
    m := SignatureOf(w, s, r);
    SignedIsColonFree(s, m);
    WritesAreColonFree(r.tool);
    SignatureMatches(s, w.gateway.secret, r, m);
  }

  lemma SignatureOf(w: World, s: System, r: Request) returns (m: Signed)
    requires WireHonest(w, s) && r in s.wire && r.signature.Mac? && r.signature.secret == w.gateway.secret
      && SignaturesClaimed(s)
    ensures m in s.signed && MessageOf(m) == r.signature.message && SignedClaim(s, m)
  {
    assert Forgeable(w, s, r);
    m :| m in s.signed && MessageOf(m) == r.signature.message;
  }

  lemma SignatureMatches(s: System, secret: string, r: Request, m: Signed)
    requires r.signature == Mac(secret, MessageOf(m)) && ColonFree(m.id) && ColonFree(m.tool) && ColonFree(r.tool)
    requires m.expires == Digits(m.at + SIGNATURE_SECONDS) && m.at <= s.now
    requires Denied(s.ledger, secret, r.id, r.tool, JObj(r.arguments), r.expires, r.signature, s.now).None?
    ensures Says(m, Execution(r.id, r.tool, r.arguments)) && r.id !in s.ledger && s.now < m.at + SIGNATURE_SECONDS
  {
    AcceptedMeansSigned(s.ledger, secret, r.id, r.tool, JObj(r.arguments), r.expires, s.now, m.id, m.tool,
      m.arguments, m.expires);
    ParseDigits(m.at + SIGNATURE_SECONDS);
  }

  lemma AdmittedIsAccepted(w: World, s: System, r: Request)
    requires Admitted(w, s, r)
    ensures r in s.wire && IsWrite(r.tool) && r.signature.Mac? && r.signature.secret == w.gateway.secret
    ensures Denied(s.ledger, w.gateway.secret, r.id, r.tool, JObj(r.arguments), r.expires, r.signature, s.now).None?
  {
  }

  lemma SignedIsColonFree(s: System, m: Signed)
    requires SignedClaim(s, m) && IdsGenerated(s)
    ensures ColonFree(m.id) && ColonFree(m.tool)
  {
    assert ActionId(m.id);
    IdsAreColonFree(m.id);
    WritesAreColonFree(m.tool);
  }

  lemma AdmittedIsScoped(w: World, s: System, r: Request)
    requires Admitted(w, s, r)
    ensures Scoped(w, Execution(r.id, r.tool, r.arguments))
  {
  }

  lemma DeliverKeeps(w: World, s: System, r: Request)
    requires BackendSafe(w, s) && GatewaySafe(w, s) && Admitted(w, s, r)
    ensures GatewaySafe(w, Consume(s, r))
  {
    var m := AdmittedIsSigned(w, s, r);
    AdmittedIsScoped(w, s, r);
    ConsumeKeeps(w, s, r, m);
  }

  /** Nothing ran under an id that was not consumed. */
  lemma HostOutsideLedger(s: System, id: string)
    requires ExecutionsTraced(s) && id !in s.ledger
    ensures id !in s.running && forall i :: 0 <= i < |s.host| ==> s.host[i].id != id
  {
    forall i | 0 <= i < |s.host| ensures s.host[i].id != id {
      assert Traced(s, s.host[i]);
    }
  }

  lemma ConsumeTraces(s: System, r: Request, m: Signed)
    requires LedgerSigned(s) && ExecutionsTraced(s) && m in s.signed && Says(m, Execution(r.id, r.tool, r.arguments))
    requires r.id !in s.ledger && m.at <= s.now < m.at + SIGNATURE_SECONDS
    ensures LedgerSigned(Consume(s, r)) && ExecutionsTraced(Consume(s, r))
  {
    var s' := Consume(s, r);
    assert Consumed(s'.ledger[r.id], m);
    forall id | id in s'.ledger ensures exists k :: k in s'.signed && k.id == id && Consumed(s'.ledger[id], k) {
      if id != r.id { StillConsumed(s, s', id); }
    }
    ConsumeTracesExecutions(s, r, m);
  }

  lemma ConsumeTracesExecutions(s: System, r: Request, m: Signed)
    requires ExecutionsTraced(s) && m in s.signed && Says(m, Execution(r.id, r.tool, r.arguments)) && r.id !in s.ledger
    ensures ExecutionsTraced(Consume(s, r))
  {
    var s' := Consume(s, r);
    assert Traced(s', Execution(r.id, r.tool, r.arguments));
    forall id | id in s'.running ensures s'.running[id].id == id && Traced(s', s'.running[id]) {
      if id != r.id { StillTraced(s, s', s.running[id]); }
    }
    forall i | 0 <= i < |s'.host| ensures Traced(s', s'.host[i]) {
      StillTraced(s, s', s.host[i]);
    }
  }

  lemma ConsumeKeeps(w: World, s: System, r: Request, m: Signed)
    requires GatewaySafe(w, s) && Scoped(w, Execution(r.id, r.tool, r.arguments))
    requires m in s.signed && Says(m, Execution(r.id, r.tool, r.arguments))
    requires r.id !in s.ledger && m.at <= s.now < m.at + SIGNATURE_SECONDS
    ensures GatewaySafe(w, Consume(s, r))
  {
    var s' := Consume(s, r);
    ConsumeTraces(s, r, m);
    ConsumeScopesOnce(w, s, r);
    assert WireHonest(w, s') by {
      forall q | q in s'.wire ensures Forgeable(w, s', q) { StillForgeable(w, s, s', q); }
    }
  }

  lemma ConsumeScopesOnce(w: World, s: System, r: Request)
    requires ExecutionsTraced(s) && ExecutionsScoped(w, s) && ExecutedOnce(s)
    requires Scoped(w, Execution(r.id, r.tool, r.arguments)) && r.id !in s.ledger
    ensures ExecutionsScoped(w, Consume(s, r)) && ExecutedOnce(Consume(s, r))
  {
    HostOutsideLedger(s, r.id);
  }

  /** Executions only move along, and the ledger only receives results. */
  ghost predicate MovesAlong(s: System, s': System, started: string) {
    && s' == s.(running := s'.running, host := s'.host, ledger := s'.ledger) && s'.ledger.Keys == s.ledger.Keys
    && (forall id :: id in s.ledger ==>
       s'.ledger[id].tool == s.ledger[id].tool && s'.ledger[id].consumedAt == s.ledger[id].consumedAt)
    && (forall id :: id in s'.running ==> id in s.running && s'.running[id] == s.running[id])
    && (s'.host == s.host || (started in s.running && started !in s'.running
       && s'.host == s.host + [s.running[started]]))
  }

  lemma MovesKeepTraces(s: System, s': System, started: string)
    requires MovesAlong(s, s', started) && LedgerSigned(s) && ExecutionsTraced(s)
    ensures LedgerSigned(s') && ExecutionsTraced(s')
  {
    forall k | k in s'.running ensures s'.running[k].id == k && Traced(s', s'.running[k]) {
      StillTraced(s, s', s.running[k]);
    }
    forall i | 0 <= i < |s'.host| ensures Traced(s', s'.host[i]) {
      if i < |s.host| { assert Traced(s, s.host[i]); }
      StillTraced(s, s', s'.host[i]);
    }
    forall k | k in s'.ledger ensures exists m :: m in s'.signed && m.id == k && Consumed(s'.ledger[k], m) {
      StillConsumed(s, s', k);
    }
  }

  lemma MovesKeepOnce(s: System, s': System, started: string)
    requires MovesAlong(s, s', started) && ExecutedOnce(s) && forall id :: id in s.running ==> s.running[id].id == id
    ensures ExecutedOnce(s')
  {
  }

  lemma MovesKeepScope(w: World, s: System, s': System, started: string)
    requires MovesAlong(s, s', started) && ExecutionsScoped(w, s)
    ensures ExecutionsScoped(w, s')
  {
  }

  lemma MovesKeep(w: World, s: System, s': System, started: string)
    requires MovesAlong(s, s', started) && GatewaySafe(w, s)
    ensures GatewaySafe(w, s')
  {
    MovesKeepTraces(s, s', started);
    MovesKeepOnce(s, s', started);
    MovesKeepScope(w, s, s', started);
    forall q | q in s'.wire ensures Forgeable(w, s', q) { StillForgeable(w, s, s', q); }
  }

  lemma GatewayMovesAlong(w: World, s: System, m: Move)
    requires m.Run? || m.Respond? || m.RestartGateway?
    ensures MovesAlong(s, Next(w, s, m), if m.Run? then m.id else "")
  {
  }

  lemma BackendUntouched(w: World, s: System, s': System)
    requires BackendSafe(w, s) && s'.backend == s.backend && s'.signed == s.signed && s'.now >= s.now
    ensures BackendSafe(w, s')
  {
    forall m | m in s'.signed ensures SignedClaim(s', m) {
      assert SignedClaim(s, m);
    }
  }

  lemma NextKeepsBackend(w: World, s: System, m: Move)
    requires BackendSafe(w, s)
    ensures BackendSafe(w, Next(w, s, m))
  {
    match m
    case Work(e) => if Generated(e) { WorkKeeps(w, s, e); }
    case Send(n) => SendKeepsBackend(w, s, n);
    case _ => BackendUntouched(w, s, Next(w, s, m));
  }

  lemma NextKeepsGateway(w: World, s: System, m: Move)
    requires BackendSafe(w, s) && GatewaySafe(w, s)
    ensures GatewaySafe(w, Next(w, s, m))
  {
    if m.Run? || m.Respond? || m.RestartGateway? {
      GatewayMovesAlong(w, s, m);
      MovesKeep(w, s, Next(w, s, m), if m.Run? then m.id else "");
    } else if m.Work? || m.Tick? {
      GatewayUntouched(w, s, Next(w, s, m));
    } else if m.Send? {
      SendKeepsGateway(w, s, m.n);
    } else {
      NetworkKeepsGateway(w, s, m);
    }
  }

  lemma NetworkKeepsGateway(w: World, s: System, m: Move)
    requires BackendSafe(w, s) && GatewaySafe(w, s) && (m.Inject? || m.Deliver?)
    ensures GatewaySafe(w, Next(w, s, m))
  {
    match m
    case Inject(r) => if Forgeable(w, s, r) { AddedToWire(w, s, r); }
    case Deliver(r) => if Admitted(w, s, r) { DeliverKeeps(w, s, r); }
  }
}
