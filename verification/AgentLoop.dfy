/** The bounded investigation loop. The model's decisions, the replies of the tools and of the
    services, and what others record meanwhile are arbitrary inputs. */
module AgentLoop {
  import opened JsonValues
  import opened Canonical
  import opened Narrowing
  import opened Schema
  import opened Tools
  import R = Records

  // --- Signatures of diagnostics ---

  function Signature(tool: string, arguments: seq<Field>): string {
    tool + ([':'] + CanonicalArguments(JObj(arguments)))
  }

  /** A signature names one tool and one canonical argument text. */
  lemma SignatureInjective(t: string, a: seq<Field>, t': string, a': seq<Field>)
    requires ColonFree(t) && ColonFree(t') && Signature(t, a) == Signature(t', a')
    ensures t == t' && CanonicalArguments(JObj(a)) == CanonicalArguments(JObj(a'))
  {
    UpToColon(t, t', CanonicalArguments(JObj(a)), CanonicalArguments(JObj(a')));
  }

  lemma NetworkReadsAreColonFree(tool: string)
    requires tool in NETWORK_READS
    ensures ColonFree(tool)
  {
  }

  lemma ServiceReadsAreColonFree(tool: string)
    requires tool in SERVICE_READS
    ensures ColonFree(tool)
  {
  }

  lemma HostReadsAreColonFree(tool: string)
    requires tool in HOST_READS
    ensures ColonFree(tool)
  {
  }

  lemma ReadToolsAreColonFree(tool: string)
    requires tool in READ_TOOLS
    ensures ColonFree(tool)
  {
    if tool in NETWORK_READS { NetworkReadsAreColonFree(tool); }
    else if tool in SERVICE_READS { ServiceReadsAreColonFree(tool); }
    else { HostReadsAreColonFree(tool); }
  }

  // --- What happened, in order ---

  datatype Act =
    | Routed(tool: string, arguments: seq<Field>)    // the deterministic first diagnostic
    | Asked                                          // one decision of the model
    | Called(tool: string, arguments: seq<Field>)    // a diagnostic the model chose
    | Wrote                                          // an autonomous action that was dispatched
    | Duplicate(tool: string, arguments: seq<Field>, seen: seq<Seen>)
    | Rejected

  predicate IsRead(a: Act) {
    a.Routed? || a.Called?
  }

  function SignatureOf(a: Act): string
    requires IsRead(a)
  {
    Signature(a.tool, a.arguments)
  }

  /** The signatures executed since the last autonomous action. */
  function SinceAction(acts: seq<Act>): set<string> {
    if acts == [] then {}
    else
      var last := acts[|acts| - 1];
      var before := acts[..|acts| - 1];
      if last.Wrote? then {} else SinceAction(before) + if IsRead(last) then {SignatureOf(last)} else {}
  }

  /** No read repeats one executed since the last autonomous action. */
  predicate NeverRepeats(acts: seq<Act>) {
    acts == [] ||
    (var last := acts[|acts| - 1];
     var before := acts[..|acts| - 1];
     NeverRepeats(before) && (IsRead(last) ==> SignatureOf(last) !in SinceAction(before)))
  }

  /** Two executed reads with one signature have an autonomous action between them. */
  lemma {:induction false} RepeatsAreSeparated(acts: seq<Act>, i: nat, j: nat)
    requires NeverRepeats(acts) && i < j < |acts| && IsRead(acts[i]) && IsRead(acts[j])
    requires SignatureOf(acts[i]) == SignatureOf(acts[j])
    ensures exists k :: i < k < j && acts[k].Wrote?
  {
    if j == |acts| - 1 {
      StillSince(acts[..j], i);
    } else {
      RepeatsAreSeparated(acts[..|acts| - 1], i, j);
    }
  }

  lemma {:induction false} StillSince(acts: seq<Act>, i: nat)
    requires i < |acts| && IsRead(acts[i])
    ensures SignatureOf(acts[i]) in SinceAction(acts) || exists k :: i < k < |acts| && acts[k].Wrote?
  {
    if i < |acts| - 1 { StillSince(acts[..|acts| - 1], i); }
  }

  function Tally(acts: seq<Act>, p: Act -> bool): nat {
    if acts == [] then 0 else Tally(acts[..|acts| - 1], p) + if p(acts[|acts| - 1]) then 1 else 0
  }

  /** The tally counts the places where `p` holds. */
  lemma {:induction false} TallyExactly(acts: seq<Act>, p: Act -> bool)
    ensures Tally(acts, p) == |set k | 0 <= k < |acts| && p(acts[k])|
  {
    if acts != [] {
      var last := |acts| - 1;
      var before := set k | 0 <= k < last && p(acts[..last][k]);
      TallyExactly(acts[..last], p);
      assert (set k | 0 <= k < |acts| && p(acts[k])) == before + if p(acts[last]) then {last} else {};
    }
  }

  predicate Spends(a: Act) {
    a.Asked? || a.Routed?
  }

  predicate Rejects(a: Act) {
    a.Rejected? || a.Duplicate?
  }

  /** Decisions and routed diagnostics are counted against the budget, and every refusal against the three. */
  lemma CountsExactly(acts: seq<Act>)
    ensures Tally(acts, Spends) == |set k | 0 <= k < |acts| && (acts[k].Asked? || acts[k].Routed?)|
    ensures Tally(acts, Rejects) == |set k | 0 <= k < |acts| && (acts[k].Rejected? || acts[k].Duplicate?)|
  {
    SameCount(acts, Spends, set k | 0 <= k < |acts| && (acts[k].Asked? || acts[k].Routed?));
    SameCount(acts, Rejects, set k | 0 <= k < |acts| && (acts[k].Rejected? || acts[k].Duplicate?));
  }

  lemma SameCount(acts: seq<Act>, p: Act -> bool, places: set<int>)
    requires forall k :: k in places <==> 0 <= k < |acts| && p(acts[k])
    ensures Tally(acts, p) == |places|
  {
    TallyExactly(acts, p);
    assert places == set k | 0 <= k < |acts| && p(acts[k]);
  }

  lemma CountAppend(acts: seq<Act>, a: Act, p: Act -> bool)
    ensures Tally(acts + [a], p) == Tally(acts, p) + if p(a) then 1 else 0
    ensures SinceAction(acts + [a]) ==
      if a.Wrote? then {} else SinceAction(acts) + if IsRead(a) then {SignatureOf(a)} else {}
    ensures NeverRepeats(acts + [a]) <==> NeverRepeats(acts) && (IsRead(a) ==> SignatureOf(a) !in SinceAction(acts))
  {
    assert (acts + [a])[..|acts|] == acts;
  }

  // --- Executed signatures are in the observations ---

  predicate Recorded(signature: string, seen: seq<Seen>) {
    exists o | o in seen :: o.arguments.JObj? && o.tool in READ_TOOLS
      && Signature(o.tool, o.arguments.fields) == signature
  }

  predicate AllRecorded(calls: set<string>, observations: seq<Seen>) {
    forall c | c in calls :: Recorded(c, SinceWrite(observations))
  }

  lemma {:induction false} SinceWriteGrows(observations: seq<Seen>, more: seq<Seen>)
    requires forall o :: o in more ==> !o.remediation
    ensures SinceWrite(observations + more) == SinceWrite(observations) + more
  {
    if more == [] {
      assert observations + more == observations;
    } else {
      var init := more[..|more| - 1];
      assert (observations + more)[..|observations + more| - 1] == observations + init;
      SinceWriteGrows(observations, init);
    }
  }

  lemma RecordedGrows(calls: set<string>, observations: seq<Seen>, more: seq<Seen>)
    requires AllRecorded(calls, observations) && forall o :: o in more ==> !o.remediation
    ensures AllRecorded(calls, observations + more)
  {
    SinceWriteGrows(observations, more);
    forall c | c in calls ensures Recorded(c, SinceWrite(observations + more)) {
      var o :| o in SinceWrite(observations) && o.arguments.JObj? && o.tool in READ_TOOLS
        && Signature(o.tool, o.arguments.fields) == c;
      assert o in SinceWrite(observations + more);
    }
  }

  // --- What the narrowed schema admits is never a duplicate ---

  /** Instances that differ only in the order of fields are equal. */
  ghost predicate IgnoresOrder(same: (Json, Json) -> bool) {
    forall a, b :: Canon(a) == Canon(b) ==> same(a, b)
  }

  /** The call is offered to the model: the narrowed parameters accept it, in a case where they
      list the remaining targets or no target was used yet. */
  ghost predicate Offered(scope: Scope, tool: Tool, seen: seq<Seen>, arguments: seq<Field>) {
    && Equivalence(scope.sem.same) && IgnoresOrder(scope.sem.same) && WellFormed(tool.parameters)
    && (Enumerated(tool, seen) || Prior(tool.name, seen) == [])
    && Narrowed(scope.sem.same, tool, seen).Some?
    && Valid(scope, Narrowed(scope.sem.same, tool, seen).value, JObj(arguments))
  }

  lemma {:induction false} ArgumentsOfHolds(tool: string, seen: seq<Seen>, o: Seen)
    requires o in seen && o.tool == tool
    ensures o.arguments in ArgumentsOf(tool, seen)
  {
    if seen[0] != o { ArgumentsOfHolds(tool, seen[1..], o); }
  }

  lemma SameTextAgrees(same: (Json, Json) -> bool, keys: seq<string>, a: seq<Field>, b: seq<Field>)
    requires IgnoresOrder(same) && CanonicalArguments(JObj(a)) == CanonicalArguments(JObj(b))
    ensures Agrees(same, keys, JObj(a), JObj(b))
  {
    forall i | 0 <= i < |keys| ensures same(GetOrNull(JObj(a), keys[i]), GetOrNull(JObj(b), keys[i])) {
      SameTextSameLookups(a, b, keys[i]);
    }
  }

  lemma OfferedIsNoDuplicate(scope: Scope, tool: Tool, seen: seq<Seen>, arguments: seq<Field>, calls: set<string>)
    requires Offered(scope, tool, seen, arguments) && AllRecorded(calls, seen) && tool.name in READ_TOOLS
    ensures Signature(tool.name, arguments) !in calls
  {
    var s := Signature(tool.name, arguments);
    if s in calls {
      assert Recorded(s, SinceWrite(seen));
      var o :| o in SinceWrite(seen) && o.arguments.JObj? && o.tool in READ_TOOLS
        && Signature(o.tool, o.arguments.fields) == s;
      ReadToolsAreColonFree(o.tool);
      ReadToolsAreColonFree(tool.name);
      SignatureInjective(o.tool, o.arguments.fields, tool.name, arguments);
      ArgumentsOfHolds(tool.name, SinceWrite(seen), o);
      SameTextAgrees(scope.sem.same, RequiredKeys(tool.parameters), o.arguments.fields, arguments);
      NarrowedByPrior(scope, tool, seen, JObj(arguments));
      assert false;
    }
  }

  // --- The loop ---

  datatype Decision =
    | ToolCall(tool: string, arguments: seq<Field>)
    | Diagnosis(remediation: Option<(string, seq<Field>)>)
    | ExecuteAction(tool: string, arguments: seq<Field>)
    | RequestApproval
    | Conclude

  /** How a called service ends: normally, with an error that is shown to the model, with the
      schema validator's error, or with any other exception. */
  datatype Effect = Done | PolicyError | SchemaError | Crash

  /** One turn's inputs. `before` is recorded before the context is built, such as the verification
      of the previous turn's action; `during` while the model is asked. Neither is a remediation. */
  datatype Turn = Turn(
    before: seq<(string, Json)>, during: seq<(string, Json)>,
    reply: Option<Decision>, first: Effect, second: Effect, third: Effect)

  datatype Ending = Returned | StoppedByRejections | OutOfBudget | Raised

  /** What a decision that is no diagnostic comes to. */
  datatype TurnEnd = Ends(ending: Ending) | Refused | Acted(tool: string, arguments: seq<Field>)

  function After(effect: Effect, done: TurnEnd): TurnEnd {
    match effect
    case Done => done
    case Crash => Ends(Raised)
    case _ => Refused
  }

  /** A diagnosis ends the run, unless autonomy is on: then its first remediation is tried, and when
      policy refuses that, or there is none, recovery is verified before the run ends. */
  function Judge(autonomy: bool, d: Decision, turn: Turn): TurnEnd
    requires !d.ToolCall?
  {
    match d
    case Conclude => Ends(Returned)
    case RequestApproval => After(turn.first, Ends(Returned))
    case ExecuteAction(tool, arguments) => After(turn.second, Acted(tool, arguments))
    case Diagnosis(remediation) =>
      if !turn.first.Done? || !autonomy then After(turn.first, Ends(Returned))
      else if remediation.None? || turn.second.PolicyError? then After(turn.third, Ends(Returned))
      else After(turn.second, Acted(remediation.value.0, remediation.value.1))
  }

  // --- What each decision comes to, by the calls it leads to ---

  /** The diagnosis' own first remediation is called for: it was saved, autonomy is on, and there is one. */
  predicate TriesRemediation(autonomy: bool, d: Decision, turn: Turn) {
    d.Diagnosis? && turn.first.Done? && autonomy && d.remediation.Some?
  }

  /** Recovery is verified: the diagnosis was saved with autonomy on, and left nothing to do, or policy refused it. */
  predicate TriesRecovery(autonomy: bool, d: Decision, turn: Turn) {
    && d.Diagnosis? && turn.first.Done? && autonomy
    && (d.remediation.None? || turn.second.PolicyError?)
  }

  /** The services a decision calls: saving, or asking an operator, is the first, acting the second, and
      verifying the third. */
  function Calls(autonomy: bool, d: Decision, turn: Turn): set<Effect>
    requires !d.ToolCall?
  {
    (if d.RequestApproval? || d.Diagnosis? then {turn.first} else {})
    + (if d.ExecuteAction? || TriesRemediation(autonomy, d, turn) then {turn.second} else {})
    + (if TriesRecovery(autonomy, d, turn) then {turn.third} else {})
  }

  /** A decision that is no diagnostic raises when a service it calls crashes; it goes on after an action that was
      dispatched, its own or the diagnosis' first; it ends the run when nothing that it calls fails and nothing
      was done, a refusal by policy of the diagnosis' own remediation aside; and otherwise it is refused. */
  lemma JudgeExactly(autonomy: bool, d: Decision, turn: Turn)
    requires !d.ToolCall?
    ensures var end, calls := Judge(autonomy, d, turn), Calls(autonomy, d, turn);
      && (end == Ends(Raised) <==> Crash in calls)
      && (forall tool, arguments :: end == Acted(tool, arguments) <==>
            && turn.second.Done?
            && (d == ExecuteAction(tool, arguments)
               || (TriesRemediation(autonomy, d, turn) && d.remediation == Some((tool, arguments)))))
      && (end == Ends(Returned) <==>
            || d.Conclude? || (d.RequestApproval? && calls == {Done})
            || (d.Diagnosis? && turn.first.Done?
               && (!autonomy || (TriesRecovery(autonomy, d, turn) && turn.third.Done?))))
      && !(end == Ends(StoppedByRejections)) && !(end == Ends(OutOfBudget))
  {
  }

  function SeenBy(others: seq<(string, Json)>): (r: seq<Seen>)
    ensures forall o :: o in r ==> !o.remediation
  {
    seq(|others|, i requires 0 <= i < |others| => Seen(others[i].0, others[i].1, false))
  }

  /** What a decision does to the record, when `calls` were executed and the model was shown `seen`. */
  function Effects(settings: R.Settings, calls: set<string>, d: Decision, turn: Turn, seen: seq<Seen>): seq<Act> {
    if d.ToolCall? then
      if !R.Permitted(settings, d.tool, JObj(d.arguments), false) then [Rejected]
      else if Signature(d.tool, d.arguments) in calls then [Duplicate(d.tool, d.arguments, seen)]
      else [Called(d.tool, d.arguments)]
    else
      match Judge(settings.autonomy, d, turn)
      case Refused => [Rejected]
      case Acted(_, _) => [Wrote]
      case Ends(_) => []
  }

  /** What a decision leaves to observe: the reply of a diagnostic that was run, or of an action. */
  function Observed(settings: R.Settings, calls: set<string>, d: Decision, turn: Turn): seq<Seen> {
    if d.ToolCall? then
      if R.Permitted(settings, d.tool, JObj(d.arguments), false) && Signature(d.tool, d.arguments) !in calls
      then [Seen(d.tool, JObj(d.arguments), false)] else []
    else
      match Judge(settings.autonomy, d, turn)
      case Acted(tool, arguments) => [Seen(tool, JObj(arguments), true)]
      case _ => []
  }

  function EndingOf(settings: R.Settings, d: Decision, turn: Turn): Option<Ending> {
    if d.ToolCall? then None
    else match Judge(settings.autonomy, d, turn) case Ends(ending) => Some(ending) case _ => None
  }

  /** A chosen diagnostic is run exactly when it is a known read that the registry offers as read-only for these
      arguments and its signature was not executed since the last action; a repeated one is noted with what the
      model was shown, and any other is refused. */
  lemma EffectsExactly(settings: R.Settings, calls: set<string>, d: Decision, turn: Turn, seen: seq<Seen>)
    requires d.ToolCall?
    ensures var offered := !IsWrite(d.tool) && d.tool in READ_TOOLS
        && R.Offers(settings, d.tool, JObj(d.arguments), R.ReadOnly);
      var repeated := d.tool + ":" + CanonicalArguments(JObj(d.arguments)) in calls;
      && Effects(settings, calls, d, turn, seen)
         == [if !offered then Rejected else if repeated then Duplicate(d.tool, d.arguments, seen)
             else Called(d.tool, d.arguments)]
      && Observed(settings, calls, d, turn)
         == if offered && !repeated then [Seen(d.tool, JObj(d.arguments), false)] else []
  {
    R.PermittedExactly(settings, d.tool, JObj(d.arguments), false);
    assert Signature(d.tool, d.arguments) == d.tool + ":" + CanonicalArguments(JObj(d.arguments));
  }

  // --- The whole loop ---

  datatype State = State(observations: seq<Seen>, acts: seq<Act>)

  /** One turn: what others recorded, the model's decision, and what it comes to. */
  function Turned(settings: R.Settings, s: State, turn: Turn): State {
    var calls, seen := SinceAction(s.acts), s.observations + SeenBy(turn.before);
    if turn.reply.None? then State(seen + SeenBy(turn.during), s.acts + [Asked])
    else
      var d := turn.reply.value;
      State(seen + SeenBy(turn.during) + Observed(settings, calls, d, turn),
            s.acts + [Asked] + Effects(settings, calls, d, turn, seen))
  }

  predicate RefusedIn(settings: R.Settings, s: State, turn: Turn) {
    && turn.reply.Some?
    && var effects :=
         Effects(settings, SinceAction(s.acts), turn.reply.value, turn, s.observations + SeenBy(turn.before));
       exists a | a in effects :: Rejects(a)
  }

  function RefusedAfter(settings: R.Settings, s: State, turn: Turn, refusals: nat): nat {
    refusals + if RefusedIn(settings, s, turn) then 1 else 0
  }

  /** How a turn ends the run, if it does: the model failed, its decision ends it, or it was the third refusal. */
  function EndedBy(settings: R.Settings, s: State, turn: Turn, refusals: nat): Option<Ending> {
    if turn.reply.None? then Some(Raised)
    else if EndingOf(settings, turn.reply.value, turn).Some? then EndingOf(settings, turn.reply.value, turn)
    else if RefusedAfter(settings, s, turn, refusals) >= 3 then Some(StoppedByRejections)
    else None
  }

  /** The turns until one of them ends the run, or the budget does. */
  function Played(settings: R.Settings, s: State, turns: nat -> Turn, step: nat, budget: nat, refusals: nat)
    : (State, Ending)
    decreases budget - step
  {
    if step >= budget then (s, OutOfBudget)
    else
      var next, ended := Turned(settings, s, turns(step)), EndedBy(settings, s, turns(step), refusals);
      if ended.Some? then (next, ended.value)
      else Played(settings, next, turns, step + 1, budget, RefusedAfter(settings, s, turns(step), refusals))
  }

  class Investigation {
    const settings: R.Settings
    const maxSteps: nat
    const maxCalls: nat
    var observations: seq<Seen>
    var calls: set<string>
    var acts: seq<Act>

    constructor (settings: R.Settings, maxSteps: nat, maxCalls: nat, observations: seq<Seen>)
      ensures this.settings == settings && this.maxSteps == maxSteps && this.maxCalls == maxCalls
      ensures this.observations == observations && calls == {} && acts == []
    {
      this.settings, this.maxSteps, this.maxCalls := settings, maxSteps, maxCalls;
      this.observations, calls, acts := observations, {}, [];
    }

    function Budget(): (b: nat)
      ensures b <= maxSteps && b <= maxCalls && (b == maxSteps || b == maxCalls)
    {
      if maxSteps <= maxCalls then maxSteps else maxCalls
    }

    /** Reads are reads, none repeats, every signature is recorded, and whatever was refused as a
        duplicate had not been offered. */
    ghost predicate Valid()
      reads this
    {
      && calls == SinceAction(acts) && NeverRepeats(acts) && AllRecorded(calls, observations)
      && (forall a :: a in acts && IsRead(a) ==>
            a.tool in READ_TOOLS && !IsWrite(a.tool) && R.Permitted(settings, a.tool, JObj(a.arguments), false))
      && (forall a: Act, scope: Scope, parameters: Json :: a in acts && a.Duplicate? ==>
            !Offered(scope, Tool(a.tool, "READ_ONLY", parameters), a.seen, a.arguments))
    }

    function Now(): State
      reads this
    {
      State(observations, acts)
    }

    method Append(a: Act)
      requires Valid() && !IsRead(a) && !a.Wrote? && !a.Duplicate?
      modifies `acts
      ensures Valid() && acts == old(acts) + [a]
      ensures Tally(acts, Spends) == Tally(old(acts), Spends) + if Spends(a) then 1 else 0
      ensures Tally(acts, Rejects) == Tally(old(acts), Rejects) + if Rejects(a) then 1 else 0
    {
      CountAppend(acts, a, Spends);
      CountAppend(acts, a, Rejects);
      acts := acts + [a];
    }

    /** A permitted diagnostic that was not run since the last action is run and recorded. */
    method ExecuteRead(a: Act)
      requires Valid() && IsRead(a) && R.Permitted(settings, a.tool, JObj(a.arguments), false)
        && SignatureOf(a) !in calls
      modifies this
      ensures Valid() && acts == old(acts) + [a]
      ensures observations == old(observations) + [Seen(a.tool, JObj(a.arguments), false)]
      ensures Tally(acts, Spends) == Tally(old(acts), Spends) + if Spends(a) then 1 else 0
      ensures Tally(acts, Rejects) == Tally(old(acts), Rejects)
    {
      CountAppend(acts, a, Spends);
      CountAppend(acts, a, Rejects);
      var o := Seen(a.tool, JObj(a.arguments), false);
      RecordedGrows(calls, observations, [o]);
      SinceWriteGrows(observations, [o]);
      assert o in SinceWrite(observations + [o]);
      calls := calls + {SignatureOf(a)};
      observations := observations + [o];
      acts := acts + [a];
    }

    /** A dispatched action is recorded as a remediation, and forgets the earlier diagnostics. */
    method Write(tool: string, arguments: seq<Field>)
      requires Valid()
      modifies this
      ensures Valid() && acts == old(acts) + [Wrote]
      ensures observations == old(observations) + [Seen(tool, JObj(arguments), true)]
      ensures Tally(acts, Spends) == Tally(old(acts), Spends) && Tally(acts, Rejects) == Tally(old(acts), Rejects)
    {
      CountAppend(acts, Wrote, Spends);
      CountAppend(acts, Wrote, Rejects);
      observations := observations + [Seen(tool, JObj(arguments), true)];
      calls := {};
      acts := acts + [Wrote];
    }

    /** A repeated diagnostic is refused; `seen` is what the model had been shown. */
    method RefuseDuplicate(tool: string, arguments: seq<Field>, seen: seq<Seen>)
      requires Valid() && Signature(tool, arguments) in calls && AllRecorded(calls, seen) && tool in READ_TOOLS
      modifies `acts
      ensures Valid() && acts == old(acts) + [Duplicate(tool, arguments, seen)]
      ensures Tally(acts, Spends) == Tally(old(acts), Spends) && Tally(acts, Rejects) == Tally(old(acts), Rejects) + 1
    {
      var a := Duplicate(tool, arguments, seen);
      CountAppend(acts, a, Spends);
      CountAppend(acts, a, Rejects);
      forall scope: Scope, parameters: Json
        ensures !Offered(scope, Tool(tool, "READ_ONLY", parameters), seen, arguments)
      {
        var t := Tool(tool, "READ_ONLY", parameters);
        if Offered(scope, t, seen, arguments) { OfferedIsNoDuplicate(scope, t, seen, arguments, calls); }
      }
      acts := acts + [a];
    }

    method Observe(others: seq<(string, Json)>)
      requires Valid()
      modifies `observations
      ensures Valid() && observations == old(observations) + SeenBy(others)
    {
      RecordedGrows(calls, observations, SeenBy(others));
      observations := observations + SeenBy(others);
    }

    /** A diagnostic the model chose: run, or refused with an error that is shown to it. */
    method HandleToolCall(tool: string, arguments: seq<Field>, seen: seq<Seen>) returns (refused: bool)
      requires Valid() && AllRecorded(calls, seen)
      modifies this
      ensures Valid() && Tally(acts, Spends) == Tally(old(acts), Spends)
      ensures Tally(acts, Rejects) == Tally(old(acts), Rejects) + if refused then 1 else 0
      ensures var permitted, repeated :=
        R.Permitted(settings, tool, JObj(arguments), false), Signature(tool, arguments) in old(calls);
        && refused == (!permitted || repeated)
        && acts == old(acts) + [if !permitted then Rejected
                                else if repeated then Duplicate(tool, arguments, seen)
                                else Called(tool, arguments)]
        && observations == old(observations) + if refused then [] else [Seen(tool, JObj(arguments), false)]
    {
      if !R.Permitted(settings, tool, JObj(arguments), false) {
        Append(Rejected);
        return true;
      }
      if Signature(tool, arguments) in calls {
        RefuseDuplicate(tool, arguments, seen);
        return true;
      }
      ExecuteRead(Called(tool, arguments));
      refused := false;
    }

    /** Every other decision, up to the end of the turn: it ends the run, is refused, or lets the
        loop go on after an action. */
    method HandleOther(d: Decision, turn: Turn) returns (ending: Option<Ending>, refused: bool)
      requires Valid() && !d.ToolCall?
      modifies this
      ensures Valid() && Tally(acts, Spends) == Tally(old(acts), Spends)
      ensures Tally(acts, Rejects) == Tally(old(acts), Rejects) + if refused then 1 else 0
      ensures var end := Judge(settings.autonomy, d, turn);
        && ending == (if end.Ends? then Some(end.ending) else None) && refused == end.Refused?
        && acts == old(acts) + (if end.Refused? then [Rejected] else if end.Acted? then [Wrote] else [])
        && observations == old(observations) + if end.Acted? then [Seen(end.tool, JObj(end.arguments), true)] else []
    {
      var effect := Done;
      ending, refused := None, false;
      match d {
        case Conclude => ending := Some(Returned);
        case RequestApproval =>
          effect := turn.first;
          if effect.Done? { ending := Some(Returned); }
        case ExecuteAction(tool, arguments) =>
          effect := turn.second;
          if effect.Done? { Write(tool, arguments); }
        case Diagnosis(remediation) =>
          effect := turn.first;
          if effect.Done? {
            if settings.autonomy && remediation.Some? {
              effect := turn.second;
              if effect.Done? {
                Write(remediation.value.0, remediation.value.1);
              } else if effect.PolicyError? {
                effect := turn.third;
                if effect.Done? { ending := Some(Returned); }
              }
            } else if settings.autonomy {
              effect := turn.third;
              if effect.Done? { ending := Some(Returned); }
            } else {
              ending := Some(Returned);
            }
          }
      }
      if effect.Crash? {
        ending := Some(Raised);
      } else if !effect.Done? {
        Append(Rejected);
        refused := true;
      }
    }

    /** What the model is shown in a turn. */
    function Shown(turn: Turn): seq<Seen>
      reads this
    {
      observations + SeenBy(turn.before)
    }

    /** The context is built, and the model is asked; others may record meanwhile. */
    method Ask(turn: Turn) returns (seen: seq<Seen>)
      requires Valid()
      modifies `observations, `acts
      ensures Valid() && acts == old(acts) + [Asked] && seen == old(Shown(turn)) && AllRecorded(calls, seen)
        && calls == old(calls) && observations == seen + SeenBy(turn.during)
      ensures Tally(acts, Spends) == Tally(old(acts), Spends) + 1 && Tally(acts, Rejects) == Tally(old(acts), Rejects)
    {
      Observe(turn.before);
      seen := observations;
      Observe(turn.during);
      Append(Asked);
    }

    method CarryOut(d: Decision, turn: Turn, seen: seq<Seen>) returns (ending: Option<Ending>, refused: bool)
      requires Valid() && AllRecorded(calls, seen)
      modifies this
      ensures Valid() && Tally(acts, Spends) == Tally(old(acts), Spends)
      ensures Tally(acts, Rejects) == Tally(old(acts), Rejects) + if refused then 1 else 0
      ensures acts == old(acts) + Effects(settings, old(calls), d, turn, seen)
      ensures observations == old(observations) + Observed(settings, old(calls), d, turn)
      ensures ending == EndingOf(settings, d, turn)
      ensures refused == exists a | a in Effects(settings, old(calls), d, turn, seen) :: Rejects(a)
    {
      if d.ToolCall? {
        ending := None;
        refused := HandleToolCall(d.tool, d.arguments, seen);
      } else {
        ending, refused := HandleOther(d, turn);
      }
    }

    /** One turn: the context is built, the model is asked, and its decision is carried out. A chosen
        diagnostic is judged against the signatures executed before the turn, and what is noted of a
        duplicate is what the model was shown. */
    method TakeTurn(turn: Turn) returns (ending: Option<Ending>, refused: bool)
      requires Valid()
      modifies this
      ensures Valid() && Tally(acts, Spends) == Tally(old(acts), Spends) + 1
      ensures Tally(acts, Rejects) == Tally(old(acts), Rejects) + if refused then 1 else 0
      ensures Now() == Turned(settings, old(Now()), turn) && refused == RefusedIn(settings, old(Now()), turn)
      ensures ending == if turn.reply.None? then Some(Raised) else EndingOf(settings, turn.reply.value, turn)
      ensures ending.Some? ==> ending.value in {Returned, Raised} && !refused
    {
      var seen := Ask(turn);
      if turn.reply.None? {
        return Some(Raised), false;
      }
      ending, refused := CarryOut(turn.reply.value, turn, seen);
    }

    /** Where the turns begin: after the routed diagnostic, if there is one. */
    function Begun(route: Option<(string, seq<Field>)>): State
      reads this
    {
      match route
      case None => State(observations, [])
      case Some((tool, arguments)) =>
        State(observations + [Seen(tool, JObj(arguments), false)], [Routed(tool, arguments)])
    }

    /** One turn, with the refusals so far: the third one ends the run. */
    method CountTurn(turn: Turn, refusals: nat) returns (ended: Option<Ending>, counted: nat)
      requires Valid() && Tally(acts, Rejects) == refusals < 3
      modifies this
      ensures Valid() && Tally(acts, Spends) == Tally(old(acts), Spends) + 1 && Tally(acts, Rejects) == counted <= 3
      ensures Now() == Turned(settings, old(Now()), turn)
      ensures counted == RefusedAfter(settings, old(Now()), turn, refusals)
      ensures ended == EndedBy(settings, old(Now()), turn, refusals)
      ensures ended != Some(OutOfBudget) && (ended == Some(StoppedByRejections) <==> counted == 3)
    {
      var refused;
      ended, refused := TakeTurn(turn);
      counted := refusals;
      if refused {
        counted := counted + 1;
        if counted >= 3 { ended := Some(StoppedByRejections); }
      }
    }

    /** The routed diagnostic, where there is one; a forbidden one raises. */
    method TakeRoute(route: Option<(string, seq<Field>)>) returns (ran: bool)
      requires Valid() && acts == []
      modifies this
      ensures Valid()
      ensures ran <==> (route.Some? ==> R.Permitted(settings, route.value.0, JObj(route.value.1), false))
      ensures Now() == if ran then old(Begun(route)) else old(Now())
      ensures Tally(acts, Spends) == |acts| && Tally(acts, Rejects) == 0
    {
      if route.None? {
        return true;
      }
      ran := R.Permitted(settings, route.value.0, JObj(route.value.1), false);
      if ran { ExecuteRead(Routed(route.value.0, route.value.1)); }
    }

    /** The loop over the turns, within what is left of the budget. */
    method TakeTurns(turns: nat -> Turn, budget: nat) returns (ending: Ending)
      requires Valid() && Tally(acts, Rejects) == 0
      modifies this
      ensures Valid()
      ensures Tally(acts, Spends) <= old(Tally(acts, Spends)) + budget
      ensures ending.OutOfBudget? ==> Tally(acts, Spends) == old(Tally(acts, Spends)) + budget
      ensures Tally(acts, Rejects) <= 3 && (ending.StoppedByRejections? <==> Tally(acts, Rejects) == 3)
      ensures (Now(), ending) == Played(settings, old(Now()), turns, 0, budget, 0)
    {
      ghost var spent, whole := Tally(acts, Spends), Played(settings, Now(), turns, 0, budget, 0);
      var step, refusals := 0, 0;
      while step < budget
        invariant 0 <= step <= budget && Valid()
        invariant Tally(acts, Spends) == spent + step && Tally(acts, Rejects) == refusals < 3
        invariant Played(settings, Now(), turns, step, budget, refusals) == whole
      {
        var ended;
        ended, refusals := CountTurn(turns(step), refusals);
        if ended.Some? {
          return ended.value;
        }
        step := step + 1;
      }
      ending := OutOfBudget;
    }

    /** _run: diagnostics by route and model decisions together stay within the budget, at most three
        decisions are refused, what ran keeps to the rules of Valid, and what happened is the turns played
        one after another. */
    method Run(route: Option<(string, seq<Field>)>, turns: nat -> Turn) returns (ending: Ending)
      requires Valid() && acts == [] && maxSteps >= 1 && maxCalls >= 1
      modifies this
      ensures Valid()
      ensures Tally(acts, Spends) <= Budget()
      ensures Tally(acts, Rejects) <= 3 && (ending.StoppedByRejections? <==> Tally(acts, Rejects) == 3)
      ensures ending.OutOfBudget? ==> Tally(acts, Spends) == Budget()
      ensures
        if route.Some? && !R.Permitted(settings, route.value.0, JObj(route.value.1), false)
        then Now() == old(Now()) && ending == Raised
        else (Now(), ending) == Played(settings, old(Begun(route)), turns, 0, Budget() - |old(Begun(route)).acts|, 0)
    {
      var ran := TakeRoute(route);
      if !ran {
        return Raised;
      }
      ending := TakeTurns(turns, Budget() - if route.Some? then 1 else 0);
    }
  }
}
