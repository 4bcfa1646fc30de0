/** When the agent may write without an operator. */
module Autonomy {
  import opened JsonValues
  import opened Strings
  import opened Topology
  import opened RecoveryChecks
  import opened Records
  import opened Tools

  const FRESH_SECONDS: int := 15 * 60

  predicate IsTrue(v: Option<Json>) {
    v == Some(JBool(true))
  }

  predicate IsFalse(v: Option<Json>) {
    v == Some(JBool(false))
  }

  predicate IsText(v: Option<Json>, s: string) {
    v == Some(JStr(s))
  }

  function Joined(text: Json -> string, lines: seq<Json>): string {
    if lines == [] then ""
    else if |lines| == 1 then text(lines[0])
    else text(lines[0]) + "\n" + Joined(text, lines[1..])
  }

  const MARKERS: seq<string> := ["mongoserverselectionerror", "mongodb atlas", "redis connection refused"]

  /** The end of a log blames something else than the container. */
  predicate BlamesDependency(text: Json -> string, log: Observation) {
    var all := match Lookup(Normalized(log), "lines") case Some(JArr(lines)) => Joined(text, lines) case _ => "";
    var excerpt := Lower(if |all| > 5000 then all[|all| - 5000..] else all);
    exists m | m in MARKERS :: Contains(excerpt, m)
  }

  predicate RedisReady(o: Observation) {
    && IsStateOf(o, "container", JStr("codeduel-redis-1"))
    && IsTrue(Nested(Normalized(o), "state", "running")) && IsText(Lookup(Normalized(o), "health"), "healthy")
  }

  function LogsOf(evidence: seq<Observation>, target: Json): (r: seq<Observation>)
    ensures forall o :: o in r ==> o in evidence && o.tool == "docker_logs" && o.ok
  {
    if evidence == [] then []
    else
      var last := evidence[|evidence| - 1];
      var r := LogsOf(evidence[..|evidence| - 1], target);
      if last.tool == "docker_logs" && last.ok && Same(GetOrNull(last.arguments, "container"), target) then r + [last]
      else r
  }

  predicate ContainerAllows(settings: Settings, tool: string, target: Json, state: Json, evidence: seq<Observation>) {
    var running := Nested(state, "state", "running");
    && (target == JStr("codeduel-api-1") || target == JStr("codeduel-worker-1")
       ==> exists o | o in evidence :: RedisReady(o))
    && (tool == "start_container" ==> IsFalse(running))
    && (tool == "restart_container" ==>
        && IsTrue(running) && (IsText(Lookup(state, "health"), "unhealthy")
           || IsTrue(Nested(state, "state", "restarting")))
        && var logs := LogsOf(evidence, target);
           logs != [] && !BlamesDependency(settings.text, logs[|logs| - 1]))
  }

  predicate PublicBad(o: Observation) {
    && o.tool == "http_check" && IsFalse(Lookup(Normalized(o), "reachable"))
    && match Lookup(o.arguments, "url") case Some(JStr(url)) => StartsWith(url, "https://codeduel.online")
       case _ => false
  }

  predicate OriginGood(o: Observation) {
    && o.tool == "http_check" && IsTrue(Lookup(Normalized(o), "reachable"))
    && (IsText(Lookup(o.arguments, "url"), "http://127.0.0.1:8085")
       || IsText(Lookup(o.arguments, "url"), "http://127.0.0.1:8085/"))
    && Lookup(Normalized(o), "status_code") == Some(JInt(200))
  }

  predicate ServiceAllows(tool: string, target: Json, state: Json, evidence: seq<Observation>) {
    var active := Lookup(state, "state");
    && (tool == "start_service" ==> IsText(active, "inactive") || IsText(active, "failed"))
    && (tool == "restart_service" ==>
        && target == JStr("cloudflared") && IsText(active, "active")
        && (exists o | o in evidence :: PublicBad(o)) && exists o | o in evidence :: OriginGood(o))
  }

  /** The evidence rule: the latest successful observation of exactly this target calls for the tool. */
  predicate EvidenceAllows(settings: Settings, tool: string, arguments: Json, evidence: seq<Observation>) {
    var key := TargetKey(tool);
    var target := GetOrNull(arguments, key);
    var states := StatesOf(evidence, key, target);
    && states != []
    && var state := Normalized(states[|states| - 1]);
       if key == "container" then ContainerAllows(settings, tool, target, state, evidence)
       else ServiceAllows(tool, target, state, evidence)
  }

  /** The observations named by `ids`, and of those the ones not older than the cutoff. */
  function Selected(observations: seq<Observation>, ids: seq<string>, cutoff: int): (r: seq<Observation>)
    ensures forall o :: o in r <==> o in observations && o.id in ids && o.at >= cutoff
  {
    if observations == [] then []
    else
      assert observations == [observations[0]] + observations[1..];
      var rest := Selected(observations[1..], ids, cutoff);
      if observations[0].id in ids && observations[0].at >= cutoff then [observations[0]] + rest else rest
  }

  function Ids(observations: seq<Observation>): (r: seq<string>)
    ensures |r| == |observations| && forall i :: 0 <= i < |r| ==> r[i] == observations[i].id
  {
    seq(|observations|, i requires 0 <= i < |observations| => observations[i].id)
  }

  predicate SameTarget(a: Action, tool: string, arguments: Json) {
    var key := TargetKey(tool);
    Same(GetOrNull(a.arguments, key), GetOrNull(arguments, key))
  }

  function ActionIds(actions: map<string, Action>, incident: string): set<string> {
    set a | a in actions && actions[a].incident == incident
  }

  /** The fresh evidence to store with the action, or nothing where the policy refuses. */
  function Authorize(settings: Settings, incident: string, inc: Incident, actions: map<string, Action>,
                     tool: string, arguments: Json, ids: seq<string>, now: int): Option<seq<Observation>>
  {
    var target := GetOrNull(arguments, TargetKey(tool));
    var evidence := Selected(inc.observations, ids, now - FRESH_SECONDS);
    if !settings.writes || !settings.autonomy then None
    else if !IsWrite(tool) || IsStop(tool) then None
    else if !Permitted(settings, tool, arguments, true) then None
    else if !target.JStr? then None
    else if settings.registry[tool].autonomousTargets.Some?
            && target.s !in settings.registry[tool].autonomousTargets.value then None
    else if target.s !in ProfileTargets(settings.topology, inc.service) then None
    else if |ActionIds(actions, incident)| >= settings.maxActions then None
    else if exists a | a in actions.Keys ::
              && actions[a].incident == incident && SameTarget(actions[a], tool, arguments)
              && !actions[a].requiresApproval then None
    else if !Cites(inc, ids) then None
    else if evidence == [] || !EvidenceAllows(settings, tool, arguments, evidence) then None
    else Some(evidence)
  }
}
