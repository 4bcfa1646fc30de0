/** The durable rows of the backend, its settings, and the tool policy shared by every caller. */
module Records {
  import opened JsonValues
  import opened Schema
  import opened Tools
  import opened Topology
  import opened RecoveryChecks

  datatype Phase = Investigation | Precheck | Remediation | Verification

  /** `result` is the body of the tool's reply; `ok` is whether the reply itself reported success. */
  datatype Observation = Observation(
    id: string, tool: string, arguments: Json, ok: bool, result: Json, phase: Phase, at: int)

  datatype Approval = Pending | Approved | Rejected | Expired | AutoAuthorized

  datatype Verdict = NotRun | Passed | Failed | Blocked

  datatype Action = Action(
    incident: string, tool: string, arguments: Json, requiresApproval: bool, expires: int,
    approval: Approval, executed: bool, claimedAt: int, evidence: seq<string>, verdict: Verdict)

  datatype Status = Open | Investigating | WaitingForApproval | Verifying | Resolved | Escalated | Interrupted

  /** The observation that a result names stands at place `at` among those of its incident; the
      program's ids are unique and need no place. */
  datatype CheckResult = CheckResult(check: Check, passed: bool, observation: string, at: nat)

  /** What a verification stored, and how many observations its incident had when it began, which
      no step reads. */
  datatype Checked = Checked(results: seq<CheckResult>, since: nat)

  /** `cited` are the evidence ids of the saved diagnosis; `verification` is what the last finished
      verification stored. */
  datatype Incident = Incident(
    service: string, status: Status, resolvedAt: Option<int>, cited: seq<string>,
    observations: seq<Observation>, verification: Checked)

  datatype Risk = ReadOnly | LowRiskWrite | OtherRisk

  datatype Entry = Entry(risk: Risk, parameters: Json, autonomousTargets: Option<seq<string>>)

  /** What does not change during a run: switches, limits, the topology, the tool registry, what
      the schema validator leaves open, and Python's `str` of a log line. */
  datatype Settings = Settings(
    writes: bool, autonomy: bool, maxActions: nat, ttl: nat, topology: Services,
    registry: map<string, Entry>, sem: Semantics, text: Json -> string)

  /** validate_tool: a write passes only where an authorized action is being handled. */
  predicate Permitted(settings: Settings, tool: string, arguments: Json, allowWrite: bool) {
    && (IsWrite(tool) || tool in READ_TOOLS) && tool in settings.registry
    && var entry := settings.registry[tool];
       && (if IsWrite(tool) then allowWrite && entry.risk.LowRiskWrite? else entry.risk.ReadOnly?)
       && Lookup(entry.parameters, "type") == Some(JStr("object"))
       && Accepts(settings.sem, entry.parameters, arguments)
  }

  /** The registry lists the tool at this risk, with a schema over objects that accepts the arguments. */
  predicate Offers(settings: Settings, tool: string, arguments: Json, risk: Risk) {
    && tool in settings.registry && settings.registry[tool].risk == risk
    && Lookup(settings.registry[tool].parameters, "type") == Some(JStr("object"))
    && Accepts(settings.sem, settings.registry[tool].parameters, arguments)
  }

  /** A write is permitted where writes may pass and the registry offers it at low risk, a known read
      where the registry offers it as read-only, and nothing else ever. */
  lemma PermittedExactly(settings: Settings, tool: string, arguments: Json, allowWrite: bool)
    ensures Permitted(settings, tool, arguments, allowWrite) <==>
      || (IsWrite(tool) && allowWrite && Offers(settings, tool, arguments, LowRiskWrite))
      || (!IsWrite(tool) && tool in READ_TOOLS && Offers(settings, tool, arguments, ReadOnly))
  {
  }

  /** A reply that is not an object is stored under "data". */
  function Normalized(o: Observation): Json {
    if o.result.JObj? then o.result else JObj([Field("data", o.result)])
  }

  /** The successful observations of exactly this target, in order. */
  function StatesOf(observations: seq<Observation>, key: string, target: Json): (r: seq<Observation>)
    ensures forall o :: o in r <==> o in observations && IsStateOf(o, key, target)
  {
    if observations == [] then []
    else
      var last := observations[|observations| - 1];
      assert observations == observations[..|observations| - 1] + [last];
      var r := StatesOf(observations[..|observations| - 1], key, target);
      if IsStateOf(last, key, target) then r + [last] else r
  }

  predicate IsStateOf(o: Observation, key: string, target: Json) {
    o.tool == StateTool(key) && Same(o.arguments, JObj([Field(key, target)])) && o.ok
  }

  function Nested(v: Json, outer: string, inner: string): Option<Json> {
    match Lookup(v, outer) case Some(x) => Lookup(x, inner) case None => None
  }

  /** Every id names an observation of the incident. */
  predicate Cites(inc: Incident, ids: seq<string>) {
    ids != [] && forall id | id in ids :: exists o | o in inc.observations :: o.id == id
  }

  /** validate_evidence: some cited observation must have succeeded. */
  predicate ValidEvidence(inc: Incident, ids: seq<string>) {
    Cites(inc, ids) && exists o | o in inc.observations :: o.id in ids && o.ok
  }
}
