/** Exactly what the moves of the write protocol do: which requests the gateway admits, what anyone may put on
    the wire, and that nothing the backend may do by itself is missing. */
module ProtocolSteps {
  import opened JsonValues
  import opened JsonText
  import opened Canonical
  import opened Records
  import opened Tools
  import opened Incidents
  import opened Ledger
  import opened Protocol
  import opened ProtocolRuns
  import opened Allowlists
  import Runs = IncidentRuns
  import Scopes

  // --- Admission ---

  /** The request names one target of a write. */
  predicate Names(r: Request, target: string) {
    || (WritesContainer(r.tool) && r.arguments == [Field("container", JStr(target))])
    || (WritesService(r.tool) && r.arguments == [Field("service", JStr(target))])
  }

  /** The signature is over this very request, which expires within ten minutes. */
  ghost predicate Vouched(secret: string, r: Request, now: int) {
    && |secret| >= 32 && GoodId(r.id)
    && (exists e: nat :: ReadsAs(r.expires, e) && now < e <= now + 600)
    && r.signature == Mac(secret, r.id + ":" + r.tool + ":" + CanonicalArguments(JObj(r.arguments)) + ":" + r.expires)
  }

  lemma NamesExactly(r: Request)
    ensures r.tool in WRITE_TOOLS && WriteArguments(r.tool, r.arguments) <==> exists target :: Names(r, target)
  {
    WritesByName(r.tool);
    if r.tool in WRITE_TOOLS && WriteArguments(r.tool, r.arguments) {
      var f := r.arguments[0];
      assert r.arguments == [Field(f.key, JStr(f.value.s))];
      assert Names(r, f.value.s);
    }
  }

  /** The gateway admits a request from the wire exactly when writes are enabled, it names one target that the
      lists let this tool write, it is vouched for, and its id was never consumed. */
  lemma AdmittedExactly(w: World, s: System, r: Request)
    ensures Admitted(w, s, r) <==>
      && r in s.wire && w.gateway.writesEnabled && r.id !in s.ledger && Vouched(w.gateway.secret, r, s.now)
      && exists target :: Names(r, target) && Writable(w.gateway.scopes, r.tool, target)
  {
    NamesExactly(r);
    DeniedExactly(s.ledger, w.gateway.secret, r.id, r.tool, JObj(r.arguments), r.expires, r.signature, s.now);
    forall target | Names(r, target)
      ensures Scopes.InScope(w.gateway.scopes, r.tool, r.arguments) <==> Writable(w.gateway.scopes, r.tool, target)
    {
      WriteScopeExactly(w.gateway.scopes, r.tool, r.arguments[0].key, target);
    }
    if r.tool in WRITE_TOOLS && WriteArguments(r.tool, r.arguments) {
      var target :| Names(r, target);
    }
  }

  // --- Sending ---

  /** The dispatch of task `n` may be signed: it was claimed and not yet sent, and the registry still offers it. */
  predicate MaySend(w: World, s: System, n: nat) {
    && n in s.backend.tasks && s.backend.tasks[n].Dispatch? && !s.backend.tasks[n].sent
    && s.backend.tasks[n].action in s.backend.actions
    && var a := s.backend.actions[s.backend.tasks[n].action];
       && (a.approval.Approved? || a.approval.AutoAuthorized?) && IsWrite(a.tool) && a.arguments.JObj?
       && Offers(w.settings, a.tool, a.arguments, LowRiskWrite) && w.backendSecret != ""
  }

  /** The request for action `id` as its row has it, expiring after 120 seconds and signed over exactly that. */
  function RequestOf(w: World, id: string, a: Action, now: nat): Request
    requires a.arguments.JObj?
  {
    var expires := Digits(now + 120);
    Request(id, a.tool, a.arguments.fields, expires,
      Mac(w.backendSecret, id + ":" + a.tool + ":" + CanonicalArguments(a.arguments) + ":" + expires))
  }

  /** Sending puts the claimed action's own request on the wire, signs it and marks the dispatch, when it may
      be signed; and does nothing otherwise. */
  lemma SendExactly(w: World, s: System, n: nat)
    ensures var s' := Next(w, s, Send(n));
      if MaySend(w, s, n) then
        var id := s.backend.tasks[n].action;
        var a := s.backend.actions[id];
        s' == s.(backend := s.backend.(tasks := s.backend.tasks[n := s.backend.tasks[n].(sent := true)]),
                 signed := s.signed + {Signed(id, a.tool, a.arguments, Digits(s.now + 120), s.now)},
                 wire := s.wire + {RequestOf(w, id, a, s.now)})
      else s' == s
  {
    if n in s.backend.tasks && s.backend.tasks[n].Dispatch? && s.backend.tasks[n].action in s.backend.actions {
      var a := s.backend.actions[s.backend.tasks[n].action];
      PermittedExactly(w.settings, a.tool, a.arguments, true);
      MessageExactly(s.backend.tasks[n].action, a.tool, a.arguments, Digits(s.now + 120));
    }
  }

  // --- The network and the host ---

  /** Anyone may put any request on the wire, except one that carries the gateway's own signature over a text
      that the backend never signed. */
  lemma InjectExactly(w: World, s: System, r: Request)
    ensures Next(w, s, Inject(r)) ==
      if forall message :: r.signature == Mac(w.gateway.secret, message) ==>
           exists m :: m in s.signed
             && message == m.id + ":" + m.tool + ":" + CanonicalArguments(m.arguments) + ":" + m.expires
      then s.(wire := s.wire + {r}) else s
  {
    forall m: Signed
      ensures MessageOf(m) == m.id + ":" + m.tool + ":" + CanonicalArguments(m.arguments) + ":" + m.expires
    {
      MessageExactly(m.id, m.tool, m.arguments, m.expires);
    }
  }

  /** What a handler replies is stored with the consumed approval, and only there. */
  lemma RespondExactly(w: World, s: System, id: string, result: Json)
    ensures var s' := Next(w, s, Respond(id, result));
      && s' == s.(ledger := s'.ledger) && s'.ledger.Keys == s.ledger.Keys
      && forall k :: k in s.ledger ==>
           s'.ledger[k] == Row(s.ledger[k].tool, s.ledger[k].consumedAt,
                               if k == id then Some(result) else s.ledger[k].result)
  {
  }

  // --- Nothing is missing ---

  predicate InTime(events: seq<(Event, int)>, start: nat) {
    && (forall k | 0 <= k < |events| :: start <= events[k].1)
    && (forall j, k | 0 <= j < k < |events| :: events[j].1 <= events[k].1)
  }

  /** Every run of the backend whose new ids are well-formed, at any times, is part of a run of the protocol. */
  lemma {:induction false} EveryRunHappens(w: World, start: nat, events: seq<(Event, int)>) returns (moves: seq<Move>)
    requires InTime(events, start) && forall k :: 0 <= k < |events| ==> Generated(events[k].0)
    ensures Reached(w, start, moves).backend == Runs.Replay(w.settings, events)
    ensures Reached(w, start, moves).now == if events == [] then start else events[|events| - 1].1
  {
    if events == [] {
      moves := [];
    } else {
      var last := |events| - 1;
      var earlier := EveryRunHappens(w, start, events[..last]);
      moves := OneMoreEvent(w, start, earlier, events[last].0, events[last].1);
    }
  }

  /** The clock is put forward, and the backend works. */
  lemma OneMoreEvent(w: World, start: nat, earlier: seq<Move>, e: Event, at: int) returns (moves: seq<Move>)
    requires Generated(e) && Reached(w, start, earlier).now <= at
    ensures Reached(w, start, moves).backend == Apply(w.settings, Reached(w, start, earlier).backend, e, at)
    ensures Reached(w, start, moves).now == at
  {
    var d: nat := at - Reached(w, start, earlier).now;
    moves := earlier + [Tick(d)] + [Work(e)];
    OneMoreMove(w, start, earlier, Tick(d));
    OneMoreMove(w, start, earlier + [Tick(d)], Work(e));
  }

  lemma OneMoreMove(w: World, start: nat, moves: seq<Move>, m: Move)
    ensures Reached(w, start, moves + [m]) == Next(w, Reached(w, start, moves), m)
  {
    assert (moves + [m])[..|moves|] == moves;
  }

  /** Ids are well-formed where the backend makes new rows; no other event is held back. */
  lemma GeneratedExactly(e: Event)
    ensures Generated(e) <==>
      match e
      case Proposal(_, a, _, _) => GoodId(a)
      case AutonomousClaim(_, a, _, _, _, _) => GoodId(a)
      case Sending(_) => false
      case _ => true
  {
    if e.Proposal? { IdsExactly(e.a); }
    if e.AutonomousClaim? { IdsExactly(e.a); }
  }

  // --- What ran ---

  /** Some signature of the backend is of this very id, tool and arguments, and was alive when it was consumed. */
  predicate VouchedFor(s: System, x: Execution, m: Signed) {
    && m in s.signed && m.id == x.id && m.tool == x.tool
    && CanonicalArguments(m.arguments) == CanonicalArguments(JObj(x.arguments))
    && x.id in s.ledger && s.ledger[x.id].tool == x.tool
    && m.at <= s.ledger[x.id].consumedAt && s.ledger[x.id].consumedAt < m.at + 120
  }

  /** Whatever ran in any run is a write that the allowlists let pass for its arguments, and was consumed with a
      signature of the backend over exactly it, less than 120 seconds old. */
  lemma ExecutionsWereVouched(w: World, start: nat, moves: seq<Move>, x: Execution)
    requires x in Reached(w, start, moves).host
    ensures IsWrite(x.tool) && Scopes.InScope(w.gateway.scopes, x.tool, x.arguments)
    ensures exists m :: VouchedFor(Reached(w, start, moves), x, m)
  {
    ExecutionsWereClaimed(w, start, moves, x);
    var s := Reached(w, start, moves);
    var m :| m in s.signed && Says(m, x) && Consumed(s.ledger[x.id], m);
    assert VouchedFor(s, x, m);
  }
}
