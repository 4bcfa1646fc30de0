/** The rules of the autonomous policy, written out on the rows, and that the authorization decides by
    exactly these. */
module AutonomyPolicy {
  import opened JsonValues
  import opened Strings
  import opened Topology
  import opened RecoveryChecks
  import opened Records
  import opened Tools
  import opened Autonomy

  /** The actions the agent may take by itself, and what each needs a target of. */
  const BY_ITSELF: set<string> := {"start_container", "restart_container", "start_service", "restart_service"}

  predicate OnContainer(tool: string) {
    tool == "start_container" || tool == "restart_container" || tool == "stop_container"
  }

  /** The argument that names the target. */
  function Kind(tool: string): string {
    if OnContainer(tool) then "container" else "service"
  }

  // --- What an observation shows ---

  predicate Shows(o: Observation, key: string, value: Json) {
    o.result.JObj? && Has(o.result.fields, key) && Get(o.result.fields, key) == value
  }

  predicate ShowsWithin(o: Observation, outer: string, inner: string, value: Json) {
    && o.result.JObj? && Has(o.result.fields, outer)
    && var within := Get(o.result.fields, outer);
       within.JObj? && Has(within.fields, inner) && Get(within.fields, inner) == value
  }

  /** A successful inspection of exactly this target. */
  predicate Inspects(o: Observation, kind: string, target: Json) {
    && o.ok && o.tool == (if kind == "container" then "docker_inspect" else "service_status")
    && Same(o.arguments, JObj([Field(kind, target)]))
  }

  /** A successful reading of this container's log. */
  predicate ReadsLog(o: Observation, target: string) {
    && o.ok && o.tool == "docker_logs"
    && Same(if o.arguments.JObj? && Has(o.arguments.fields, "container") then Get(o.arguments.fields, "container")
       else JNull,
            JStr(target))
  }

  ghost predicate LatestInspection(evidence: seq<Observation>, k: nat, kind: string, target: Json) {
    && k < |evidence| && Inspects(evidence[k], kind, target)
    && forall j | k < j < |evidence| :: !Inspects(evidence[j], kind, target)
  }

  ghost predicate LatestLog(evidence: seq<Observation>, k: nat, target: string) {
    && k < |evidence| && ReadsLog(evidence[k], target)
    && forall j | k < j < |evidence| :: !ReadsLog(evidence[j], target)
  }

  /** The entries of a log, each as Python prints it, joined by line breaks. */
  function LogText(text: Json -> string, log: Observation): string {
    if log.result.JObj? && Has(log.result.fields, "lines") && Get(log.result.fields, "lines").JArr?
    then Joined(text, Get(log.result.fields, "lines").items) else ""
  }

  function SmallLetter(c: char): char {
    if 'A' <= c <= 'Z' then (c as int + 32) as char else c
  }

  predicate MarkerAt(log: string, i: nat, marker: string) {
    i + |marker| <= |log| && forall t | 0 <= t < |marker| :: SmallLetter(log[i + t]) == marker[t]
  }

  /** One of the last 5000 characters of the log begins the name of a failed dependency, in any case. */
  ghost predicate NamesDependency(log: string) {
    exists i: nat :: i + 5000 >= |log|
      && (MarkerAt(log, i, "mongoserverselectionerror") || MarkerAt(log, i, "mongodb atlas")
          || MarkerAt(log, i, "redis connection refused"))
  }

  // --- The rules ---

  /** What the latest inspection has to show for the tool. */
  predicate CallsFor(tool: string, o: Observation) {
    && (tool == "start_container" ==> ShowsWithin(o, "state", "running", JBool(false)))
    && (tool == "restart_container" ==>
        && ShowsWithin(o, "state", "running", JBool(true))
        && (Shows(o, "health", JStr("unhealthy")) || ShowsWithin(o, "state", "restarting", JBool(true))))
    && (tool == "start_service" ==> Shows(o, "state", JStr("inactive")) || Shows(o, "state", JStr("failed")))
    && (tool == "restart_service" ==> Shows(o, "state", JStr("active")))
  }

  predicate HealthyRedis(o: Observation) {
    && Inspects(o, "container", JStr("codeduel-redis-1"))
    && ShowsWithin(o, "state", "running", JBool(true)) && Shows(o, "health", JStr("healthy"))
  }

  predicate PublicFails(o: Observation) {
    && o.tool == "http_check" && Shows(o, "reachable", JBool(false))
    && o.arguments.JObj? && Has(o.arguments.fields, "url") && Get(o.arguments.fields, "url").JStr?
    && "https://codeduel.online" <= Get(o.arguments.fields, "url").s
  }

  predicate OriginWorks(o: Observation) {
    && o.tool == "http_check" && Shows(o, "reachable", JBool(true)) && Shows(o, "status_code", JInt(200))
    && o.arguments.JObj? && Has(o.arguments.fields, "url")
    && (Get(o.arguments.fields, "url") == JStr("http://127.0.0.1:8085")
        || Get(o.arguments.fields, "url") == JStr("http://127.0.0.1:8085/"))
  }

  /** The target's latest log names no failed dependency. */
  ghost predicate LogClears(text: Json -> string, target: string, evidence: seq<Observation>) {
    exists k: nat :: LatestLog(evidence, k, target) && !NamesDependency(LogText(text, evidence[k]))
  }

  ghost predicate RedisIsHealthy(evidence: seq<Observation>) {
    exists o :: o in evidence && HealthyRedis(o)
  }

  /** The API and the worker need a healthy Redis; a container restart needs the target's latest log to
      name no failed dependency; a service restart is of the tunnel, whose public endpoint fails while
      the local origin works. */
  ghost predicate RulesHold(text: Json -> string, tool: string, target: string, evidence: seq<Observation>) {
    && (OnContainer(tool) && (target == "codeduel-api-1" || target == "codeduel-worker-1") ==>
        RedisIsHealthy(evidence))
    && (tool == "restart_container" ==> LogClears(text, target, evidence))
    && (tool == "restart_service" ==>
        && target == "cloudflared"
        && (exists o :: o in evidence && PublicFails(o)) && exists o :: o in evidence && OriginWorks(o))
  }

  /** The evidence warrants the tool on the target. */
  ghost predicate Warranted(text: Json -> string, tool: string, target: string, evidence: seq<Observation>) {
    && (exists k: nat :: LatestInspection(evidence, k, Kind(tool), JStr(target)) && CallsFor(tool, evidence[k]))
    && RulesHold(text, tool, target, evidence)
  }

  /** `some` are observations of `all`, in the order of `all`. */
  ghost predicate InOrder(some: seq<Observation>, all: seq<Observation>) {
    exists picks: seq<nat> :: Picked(some, all, picks)
  }

  ghost predicate Picked(some: seq<Observation>, all: seq<Observation>, picks: seq<nat>) {
    && |picks| == |some| && (forall k | 0 <= k < |picks| :: picks[k] < |all| && some[k] == all[picks[k]])
    && (forall j, k | 0 <= j < k < |picks| :: picks[j] < picks[k])
  }

  // --- The authorization decides by these rules ---

  lemma {:induction false} LatestOfStates(evidence: seq<Observation>, kind: string, target: Json) returns (k: nat)
    requires StatesOf(evidence, kind, target) != []
    ensures LatestInspection(evidence, k, kind, target)
    ensures evidence[k] == StatesOf(evidence, kind, target)[|StatesOf(evidence, kind, target)| - 1]
  {
    var last := |evidence| - 1;
    LastState(evidence, kind, target);
    if Inspects(evidence[last], kind, target) {
      k := last;
    } else {
      k := LatestOfStates(evidence[..last], kind, target);
    }
  }

  lemma LastState(evidence: seq<Observation>, kind: string, target: Json)
    requires evidence != []
    ensures var last := |evidence| - 1;
      StatesOf(evidence, kind, target)
      == StatesOf(evidence[..last], kind, target) + if Inspects(evidence[last], kind, target) then [evidence[last]]
        else []
  {
    var o := evidence[|evidence| - 1];
    assert Inspects(o, kind, target) <==> IsStateOf(o, kind, target);
  }

  lemma InspectionIsAmongStates(evidence: seq<Observation>, k: nat, kind: string, target: Json)
    requires k < |evidence| && Inspects(evidence[k], kind, target)
    ensures StatesOf(evidence, kind, target) != []
  {
    assert evidence[k] in StatesOf(evidence, kind, target);
  }

  /** The last of the target's successful inspections is its latest, and there is one when there is any. */
  lemma LatestExactly(evidence: seq<Observation>, kind: string, target: Json)
    ensures var states := StatesOf(evidence, kind, target);
      && (states != [] <==> exists k: nat :: LatestInspection(evidence, k, kind, target))
      && forall k: nat :: LatestInspection(evidence, k, kind, target) ==>
           states != [] && evidence[k] == states[|states| - 1]
  {
    if StatesOf(evidence, kind, target) != [] {
      var latest := LatestOfStates(evidence, kind, target);
      forall k: nat | LatestInspection(evidence, k, kind, target) ensures k == latest {
        OneLatest(evidence, k, latest, kind, target);
      }
    } else {
      forall k: nat ensures !LatestInspection(evidence, k, kind, target) {
        if LatestInspection(evidence, k, kind, target) { InspectionIsAmongStates(evidence, k, kind, target); }
      }
    }
  }

  lemma OneLatest(evidence: seq<Observation>, j: nat, k: nat, kind: string, target: Json)
    requires LatestInspection(evidence, j, kind, target) && LatestInspection(evidence, k, kind, target)
    ensures j == k
  {
  }

  lemma {:induction false} LatestOfLogs(evidence: seq<Observation>, target: string) returns (k: nat)
    requires LogsOf(evidence, JStr(target)) != []
    ensures LatestLog(evidence, k, target)
    ensures evidence[k] == LogsOf(evidence, JStr(target))[|LogsOf(evidence, JStr(target))| - 1]
  {
    var last := |evidence| - 1;
    LastLog(evidence, target);
    if ReadsLog(evidence[last], target) {
      k := last;
    } else {
      k := LatestOfLogs(evidence[..last], target);
    }
  }

  lemma LastLog(evidence: seq<Observation>, target: string)
    requires evidence != []
    ensures var last := |evidence| - 1;
      LogsOf(evidence, JStr(target))
      == LogsOf(evidence[..last], JStr(target)) + if ReadsLog(evidence[last], target) then [evidence[last]] else []
  {
    var o := evidence[|evidence| - 1];
    assert ReadsLog(o, target)
      <==> o.tool == "docker_logs" && o.ok && Same(GetOrNull(o.arguments, "container"), JStr(target));
  }

  lemma {:induction false} LogIsAmongLogs(evidence: seq<Observation>, k: nat, target: string)
    requires k < |evidence| && ReadsLog(evidence[k], target)
    ensures LogsOf(evidence, JStr(target)) != []
  {
    var last := |evidence| - 1;
    if k < last { LogIsAmongLogs(evidence[..last], k, target); }
  }

  lemma OneLatestLog(evidence: seq<Observation>, j: nat, k: nat, target: string)
    requires LatestLog(evidence, j, target) && LatestLog(evidence, k, target)
    ensures j == k
  {
  }

  // --- Logs ---

  /** Joining is by one line break between neighbours. */
  lemma {:induction false} JoinedConcat(text: Json -> string, a: seq<Json>, b: seq<Json>)
    requires a != [] && b != []
    ensures Joined(text, a + b) == Joined(text, a) + "\n" + Joined(text, b)
    ensures |a| == 1 ==> Joined(text, a) == text(a[0])
  {
    assert (a + b)[1..] == a[1..] + b;
    if |a| > 1 { JoinedConcat(text, a[1..], b); }
  }

  function Tail(log: string): string {
    if |log| > 5000 then log[|log| - 5000..] else log
  }

  lemma MarkerInTail(log: string, i: nat, marker: string)
    requires i + 5000 >= |log| && MarkerAt(log, i, marker)
    ensures Contains(Lower(Tail(log)), marker)
  {
    var p := i - (|log| - |Tail(log)|);
    var rest := Lower(Tail(log))[p..];
    forall t | 0 <= t < |marker| ensures rest[t] == marker[t] {
      assert rest[t] == SmallLetter(log[i + t]);
    }
    assert marker == rest[..|marker|];
  }

  lemma TailHasMarker(log: string, marker: string) returns (i: nat)
    requires Contains(Lower(Tail(log)), marker)
    ensures i + 5000 >= |log| && MarkerAt(log, i, marker)
  {
    var tail := Tail(log);
    var p: nat :| p <= |tail| && marker <= Lower(tail)[p..];
    i := p + |log| - |tail|;
    MarkerAtPlace(tail, p, marker);
    forall t | 0 <= t < |marker| ensures SmallLetter(log[i + t]) == marker[t] {
      assert tail[p + t] == log[i + t];
    }
  }

  lemma MarkerAtPlace(text: string, p: nat, marker: string)
    requires p <= |text| && marker <= Lower(text)[p..]
    ensures MarkerAt(text, p, marker)
  {
    var rest := Lower(text)[p..];
    forall t | 0 <= t < |marker| ensures SmallLetter(text[p + t]) == marker[t] {
      assert rest[t] == Lower(text)[p + t] && marker[t] == rest[t];
    }
  }

  lemma BlamesExactly(text: Json -> string, log: Observation)
    ensures BlamesDependency(text, log) <==> NamesDependency(LogText(text, log))
  {
    var all := LogText(text, log);
    LogTextIsJoined(text, log);
    if BlamesDependency(text, log) {
      var m :| m in MARKERS && Contains(Lower(Tail(all)), m);
      var i := TailHasMarker(all, m);
      assert MARKERS[0] == "mongoserverselectionerror" && MARKERS[1] == "mongodb atlas"
        && MARKERS[2] == "redis connection refused";
    }
    if NamesDependency(all) {
      var i: nat :| i + 5000 >= |all| && (MarkerAt(all, i, "mongoserverselectionerror")
        || MarkerAt(all, i, "mongodb atlas") || MarkerAt(all, i, "redis connection refused"));
      var m := if MarkerAt(all, i, MARKERS[0]) then MARKERS[0] else if MarkerAt(all, i, MARKERS[1]) then MARKERS[1]
        else MARKERS[2];
      MarkerInTail(all, i, m);
      assert m in MARKERS;
    }
  }

  lemma LogTextIsJoined(text: Json -> string, log: Observation)
    ensures LogText(text, log)
      == match Lookup(Normalized(log), "lines") case Some(JArr(lines)) => Joined(text, lines) case _ => ""
  {
    if !log.result.JObj? { assert Normalized(log).fields[1..] == []; }
  }

  // --- Evidence ---

  lemma ContainerExactly(settings: Settings, tool: string, target: string, evidence: seq<Observation>, k: nat)
    requires OnContainer(tool) && LatestInspection(evidence, k, "container", JStr(target))
    ensures ContainerAllows(settings, tool, JStr(target), Normalized(evidence[k]), evidence)
      <==> CallsFor(tool, evidence[k]) && RulesHold(settings.text, tool, target, evidence)
  {
    RedisExactly(evidence);
    StateExactly(tool, evidence[k]);
    if tool == "restart_container" { LogsExactly(settings.text, target, evidence); }
  }

  lemma StateExactly(tool: string, o: Observation)
    requires OnContainer(tool)
    ensures var state := Normalized(o);
      var running := Nested(state, "state", "running");
      && (tool == "start_container" ==> (IsFalse(running) <==> CallsFor(tool, o)))
      && (tool == "restart_container" ==>
          (IsTrue(running) && (IsText(Lookup(state, "health"), "unhealthy")
            || IsTrue(Nested(state, "state", "restarting")))
           <==> CallsFor(tool, o)))
  {
    NormalizedShows(o);
  }

  /** Reading a reply as an object changes nothing that these rules look at. */
  lemma NormalizedShows(o: Observation)
    ensures forall key, value :: key != "data" ==> (Lookup(Normalized(o), key) == Some(value) <==> Shows(o, key, value))
    ensures forall outer, inner, value :: outer != "data" ==>
      (Nested(Normalized(o), outer, inner) == Some(value) <==> ShowsWithin(o, outer, inner, value))
  {
    if !o.result.JObj? { assert Normalized(o).fields[1..] == []; }
  }

  lemma RedisExactly(evidence: seq<Observation>)
    ensures (exists o | o in evidence :: RedisReady(o)) <==> RedisIsHealthy(evidence)
  {
    forall o: Observation ensures RedisReady(o) <==> HealthyRedis(o) { NormalizedShows(o); }
  }

  lemma LogsExactly(text: Json -> string, target: string, evidence: seq<Observation>)
    ensures var logs := LogsOf(evidence, JStr(target));
      (logs != [] && !BlamesDependency(text, logs[|logs| - 1]))
      <==> LogClears(text, target, evidence)
  {
    var logs := LogsOf(evidence, JStr(target));
    if logs != [] {
      var k := LatestOfLogs(evidence, target);
      BlamesExactly(text, evidence[k]);
      forall j: nat | LatestLog(evidence, j, target) ensures j == k { OneLatestLog(evidence, j, k, target); }
    } else {
      forall k: nat | LatestLog(evidence, k, target) ensures false { LogIsAmongLogs(evidence, k, target); }
    }
  }

  lemma ServiceExactly(text: Json -> string, tool: string, target: string, evidence: seq<Observation>, k: nat)
    requires (tool == "start_service" || tool == "restart_service")
      && LatestInspection(evidence, k, "service", JStr(target))
    ensures ServiceAllows(tool, JStr(target), Normalized(evidence[k]), evidence)
      <==> CallsFor(tool, evidence[k]) && RulesHold(text, tool, target, evidence)
  {
    NormalizedShows(evidence[k]);
    if tool == "restart_service" {
      forall o: Observation ensures (PublicBad(o) <==> PublicFails(o)) && (OriginGood(o) <==> OriginWorks(o)) {
        EndpointsExactly(o);
      }
    }
  }

  lemma EndpointsExactly(o: Observation)
    ensures (PublicBad(o) <==> PublicFails(o)) && (OriginGood(o) <==> OriginWorks(o))
  {
    NormalizedShows(o);
  }

  /** The tool's name tells what its target is. */
  lemma KindsAndKeys(tool: string)
    requires IsWrite(tool)
    ensures TargetKey(tool) == Kind(tool)
    ensures OnContainer(tool) || tool == "start_service" || tool == "restart_service" || tool == "stop_service"
  {
    WritesAreSix(tool);
    if OnContainer(tool) { ContainerKinds(tool); } else { ServiceKinds(tool); }
  }

  lemma ContainerKinds(tool: string)
    requires OnContainer(tool)
    ensures TargetKey(tool) == "container"
  {
    assert tool[|tool| - 10..] == "_container";
  }

  lemma ServiceKinds(tool: string)
    requires tool == "start_service" || tool == "restart_service" || tool == "stop_service"
    ensures TargetKey(tool) == "service"
  {
    assert tool[|tool| - 8] == '_';
  }

  lemma WritesAreSix(tool: string)
    requires IsWrite(tool)
    ensures OnContainer(tool) || tool == "start_service" || tool == "restart_service" || tool == "stop_service"
  {
  }

  /** The evidence rule of the program is the policy as written out here. */
  lemma EvidenceAllowsExactly(settings: Settings, tool: string, arguments: Json, target: string,
                              evidence: seq<Observation>)
    requires tool in BY_ITSELF && GetOrNull(arguments, Kind(tool)) == JStr(target)
    ensures EvidenceAllows(settings, tool, arguments, evidence) <==> Warranted(settings.text, tool, target, evidence)
  {
    KindsAndKeys(tool);
    LatestExactly(evidence, Kind(tool), JStr(target));
    forall k: nat | LatestInspection(evidence, k, Kind(tool), JStr(target))
      ensures EvidenceAllows(settings, tool, arguments, evidence)
        <==> CallsFor(tool, evidence[k]) && RulesHold(settings.text, tool, target, evidence)
    {
      AllowsAt(settings, tool, arguments, target, evidence, k);
    }
  }

  lemma AllowsAt(settings: Settings, tool: string, arguments: Json, target: string, evidence: seq<Observation>, k: nat)
    requires tool in BY_ITSELF && GetOrNull(arguments, Kind(tool)) == JStr(target)
    requires LatestInspection(evidence, k, Kind(tool), JStr(target))
    ensures EvidenceAllows(settings, tool, arguments, evidence)
      <==> CallsFor(tool, evidence[k]) && RulesHold(settings.text, tool, target, evidence)
  {
    KindsAndKeys(tool);
    LatestExactly(evidence, Kind(tool), JStr(target));
    if OnContainer(tool) {
      ContainerExactly(settings, tool, target, evidence, k);
    } else {
      ServiceExactly(settings.text, tool, target, evidence, k);
    }
  }

  /** The four tools are the writes that are no stops. */
  lemma ByItselfExactly(tool: string)
    ensures tool in BY_ITSELF <==> IsWrite(tool) && !IsStop(tool)
  {
    if tool in BY_ITSELF { FourAreNoStops(tool); }
    if IsWrite(tool) && !IsStop(tool) { NoStopsAreFour(tool); }
  }

  lemma FourAreNoStops(tool: string)
    requires tool in BY_ITSELF
    ensures IsWrite(tool) && !IsStop(tool)
  {
    assert WRITE_TOOLS[0] == "restart_container" && WRITE_TOOLS[1] == "start_container";
    assert WRITE_TOOLS[3] == "restart_service" && WRITE_TOOLS[4] == "start_service";
    assert tool[0] == 'r' || tool[2] == 'a';
  }

  lemma NoStopsAreFour(tool: string)
    requires IsWrite(tool) && !IsStop(tool)
    ensures tool in BY_ITSELF
  {
    var i :| 0 <= i < |WRITE_TOOLS| && WRITE_TOOLS[i] == tool;
    assert WRITE_TOOLS[2] == "stop_container" && WRITE_TOOLS[5] == "stop_service";
    assert "stop_container"[..5] == "stop_" && "stop_service"[..5] == "stop_";
  }

  // --- The authorization ---

  /** The cited observations that are not older than the cutoff, all of them, in order. */
  ghost predicate FreshCited(evidence: seq<Observation>, all: seq<Observation>, ids: seq<string>, cutoff: int) {
    exists picks: seq<nat> :: Picked(evidence, all, picks) && PicksFresh(all, picks, ids, cutoff)
  }

  predicate PicksFresh(all: seq<Observation>, picks: seq<nat>, ids: seq<string>, cutoff: int) {
    forall p: nat | p < |all| :: p in picks <==> IsFreshCited(all[p], ids, cutoff)
  }

  predicate IsFreshCited(o: Observation, ids: seq<string>, cutoff: int) {
    o.id in ids && o.at >= cutoff
  }

  lemma {:induction false} SelectedLast(all: seq<Observation>, ids: seq<string>, cutoff: int)
    requires all != []
    ensures var last := |all| - 1;
      Selected(all, ids, cutoff)
      == Selected(all[..last], ids, cutoff) + if IsFreshCited(all[last], ids, cutoff) then [all[last]] else []
  {
    if |all| > 1 {
      SelectedLast(all[1..], ids, cutoff);
      assert all[..|all| - 1][1..] == all[1..][..|all| - 2];
    }
  }

  lemma {:induction false} SelectedPicks(all: seq<Observation>, ids: seq<string>, cutoff: int) returns (picks: seq<nat>)
    ensures Picked(Selected(all, ids, cutoff), all, picks) && PicksFresh(all, picks, ids, cutoff)
  {
    if all == [] {
      picks := [];
    } else {
      var last := |all| - 1;
      var earlier := SelectedPicks(all[..last], ids, cutoff);
      SelectedLast(all, ids, cutoff);
      LongerPicks(all, Selected(all[..last], ids, cutoff), earlier, ids, cutoff);
      picks := if IsFreshCited(all[last], ids, cutoff) then earlier + [last] else earlier;
    }
  }

  lemma LongerPicks(all: seq<Observation>, some: seq<Observation>, picks: seq<nat>, ids: seq<string>, cutoff: int)
    requires all != [] && Picked(some, all[..|all| - 1], picks) && PicksFresh(all[..|all| - 1], picks, ids, cutoff)
    ensures var last := |all| - 1;
      if IsFreshCited(all[last], ids, cutoff)
      then Picked(some + [all[last]], all, picks + [last]) && PicksFresh(all, picks + [last], ids, cutoff)
      else Picked(some, all, picks) && PicksFresh(all, picks, ids, cutoff)
  {
    var last := |all| - 1;
    assert last !in picks;
    forall p: nat | p < last ensures p in picks <==> IsFreshCited(all[p], ids, cutoff) {
      assert all[..last][p] == all[p];
    }
    if IsFreshCited(all[last], ids, cutoff) { LastPick(all, picks, ids, cutoff); }
  }

  lemma LastPick(all: seq<Observation>, picks: seq<nat>, ids: seq<string>, cutoff: int)
    requires all != [] && IsFreshCited(all[|all| - 1], ids, cutoff)
    requires forall p: nat :: p < |all| - 1 ==> (p in picks <==> IsFreshCited(all[p], ids, cutoff))
    ensures PicksFresh(all, picks + [|all| - 1], ids, cutoff)
  {
    var longer := picks + [|all| - 1];
    forall p: nat | p < |all| ensures p in longer <==> IsFreshCited(all[p], ids, cutoff) {
      assert p in longer <==> p in picks || p == |all| - 1;
    }
  }

  /** Two ascending lists with the same members are the same list. */
  lemma {:induction false} AscendingOnce(p: seq<nat>, q: seq<nat>)
    requires (forall j, k :: 0 <= j < k < |p| ==> p[j] < p[k]) && (forall j, k :: 0 <= j < k < |q| ==> q[j] < q[k])
    requires forall x :: x in p <==> x in q
    ensures p == q
  {
    if p != [] { assert p[0] in q; }
    if q != [] { assert q[0] in p; }
    if p != [] && q != [] {
      assert p[0] == q[0];
      forall x ensures x in p[1..] <==> x in q[1..] {
        assert x in p[1..] <==> x in p && x != p[0] by { assert p == [p[0]] + p[1..]; }
        assert x in q[1..] <==> x in q && x != q[0] by { assert q == [q[0]] + q[1..]; }
      }
      AscendingOnce(p[1..], q[1..]);
    }
  }

  lemma SelectedExactly(all: seq<Observation>, ids: seq<string>, cutoff: int, evidence: seq<Observation>)
    ensures evidence == Selected(all, ids, cutoff) <==> FreshCited(evidence, all, ids, cutoff)
  {
    var p := SelectedPicks(all, ids, cutoff);
    forall q: seq<nat> | Picked(evidence, all, q) && PicksFresh(all, q, ids, cutoff)
      ensures evidence == Selected(all, ids, cutoff)
    {
      SamePicks(all, Selected(all, ids, cutoff), p, evidence, q, ids, cutoff);
    }
  }

  lemma SamePicks(all: seq<Observation>, some: seq<Observation>, p: seq<nat>, other: seq<Observation>, q: seq<nat>,
                  ids: seq<string>, cutoff: int)
    requires Picked(some, all, p) && PicksFresh(all, p, ids, cutoff)
    requires Picked(other, all, q) && PicksFresh(all, q, ids, cutoff)
    ensures some == other
  {
    forall x ensures x in p <==> x in q {
      if x in p { var k :| 0 <= k < |p| && p[k] == x; }
      if x in q { var k :| 0 <= k < |q| && q[k] == x; }
    }
    AscendingOnce(p, q);
  }

  /** Everything the policy asks before the agent may act by itself on this evidence. */
  ghost predicate Authorizable(settings: Settings, incident: string, inc: Incident, actions: map<string, Action>,
                               tool: string, arguments: Json, ids: seq<string>, now: int, evidence: seq<Observation>)
  {
    var target := GetOrNull(arguments, Kind(tool));
    && settings.writes && settings.autonomy
    && tool in BY_ITSELF && Offers(settings, tool, arguments, LowRiskWrite) && target.JStr?
    && (settings.registry[tool].autonomousTargets.Some? ==> target.s in settings.registry[tool].autonomousTargets.value)
    && target.s in ProfileTargets(settings.topology, inc.service)
    && |set x | x in actions && actions[x].incident == incident| < settings.maxActions
    && (forall x :: x in actions && actions[x].incident == incident && !actions[x].requiresApproval ==>
        !Same(GetOrNull(actions[x].arguments, Kind(tool)), target))
    && ids != [] && (forall id :: id in ids ==> exists o :: o in inc.observations && o.id == id)
    && FreshCited(evidence, inc.observations, ids, now - 15 * 60)
    && Warranted(settings.text, tool, target.s, evidence)
  }

  /** The policy authorizes exactly what it says, on exactly the fresh cited evidence. */
  lemma AuthorizeExactly(settings: Settings, incident: string, inc: Incident, actions: map<string, Action>,
                         tool: string, arguments: Json, ids: seq<string>, now: int, evidence: seq<Observation>)
    ensures Authorize(settings, incident, inc, actions, tool, arguments, ids, now) == Some(evidence)
      <==> Authorizable(settings, incident, inc, actions, tool, arguments, ids, now, evidence)
  {
    ByItselfExactly(tool);
    PermittedExactly(settings, tool, arguments, true);
    SelectedExactly(inc.observations, ids, now - FRESH_SECONDS, evidence);
    if tool in BY_ITSELF {
      KindsAndKeys(tool);
      var target := GetOrNull(arguments, Kind(tool));
      if target.JStr? {
        EvidenceAllowsExactly(settings, tool, arguments, target.s, evidence);
        CitesExactly(inc, ids);
        ActionsOfOne(actions, incident);
      }
    }
  }

  lemma CitesExactly(inc: Incident, ids: seq<string>)
    ensures Cites(inc, ids) <==> ids != [] && forall id :: id in ids ==> exists o :: o in inc.observations && o.id == id
  {
  }

  lemma ActionsOfOne(actions: map<string, Action>, incident: string)
    ensures ActionIds(actions, incident) == set x | x in actions && actions[x].incident == incident
  {
  }
}
