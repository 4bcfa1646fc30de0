/** The gateway's allowlists read from the configuration: which configurations are accepted, and exactly what
    each list lets through, target by target and tool by tool. */
module Allowlists {
  import opened JsonValues
  import opened Tools
  import opened Scopes

  // --- Tools by name ---

  predicate WritesContainer(tool: string) {
    tool == "start_container" || tool == "restart_container" || tool == "stop_container"
  }

  predicate WritesService(tool: string) {
    tool == "start_service" || tool == "restart_service" || tool == "stop_service"
  }

  lemma WritesByName(tool: string)
    ensures tool in CONTAINER_WRITES <==> WritesContainer(tool)
    ensures tool in SERVICE_WRITES <==> WritesService(tool)
    ensures IsWrite(tool) <==> WritesContainer(tool) || WritesService(tool)
  {
    ContainersByName(tool);
    ServicesByName(tool);
    assert IsWrite(tool) <==> tool in CONTAINER_WRITES || tool in SERVICE_WRITES;
  }

  lemma ContainersByName(tool: string)
    ensures tool in CONTAINER_WRITES <==> WritesContainer(tool)
  {
    assert CONTAINER_WRITES[0] == "restart_container" && CONTAINER_WRITES[1] == "start_container"
      && CONTAINER_WRITES[2] == "stop_container";
  }

  lemma ServicesByName(tool: string)
    ensures tool in SERVICE_WRITES <==> WritesService(tool)
  {
    assert SERVICE_WRITES[0] == "restart_service" && SERVICE_WRITES[1] == "start_service"
      && SERVICE_WRITES[2] == "stop_service";
  }

  /** What the host must keep: no configuration may let it be written. */
  predicate Untouchable(target: string) {
    target == "docker" || target == "ssh" || target == "sshd" || target == "tailscaled"
  }

  lemma UntouchableExactly(target: string)
    ensures target in PROTECTED <==> Untouchable(target)
  {
    assert PROTECTED[0] == "docker" && PROTECTED[1] == "ssh" && PROTECTED[2] == "sshd" && PROTECTED[3] == "tailscaled";
  }

  /** The arguments of the diagnostics of the network. */
  lemma NetworkArguments()
    ensures ArgumentKeys("dns_lookup") == ["hostname"] && ArgumentKeys("ping_host") == ["hostname", "count"]
    ensures ArgumentKeys("http_check") == ["url"] && ArgumentKeys("port_check") == ["host", "port"]
    ensures ArgumentKeys("mongodb_atlas_connectivity") == ["seed"]
  {
  }

  lemma ServiceArguments()
    ensures ArgumentKeys("docker_inspect") == ["container"] && ArgumentKeys("docker_logs") == ["container", "lines"]
    ensures ArgumentKeys("service_status") == ["service"] && ArgumentKeys("is_service_enabled") == ["service"]
    ensures ArgumentKeys("journal_logs") == ["service", "lines"]
    ensures ArgumentKeys("recent_docker_events") == ["minutes"]
  {
  }

  lemma HostArguments()
    ensures ArgumentKeys("disk_usage") == ["path"] && ArgumentKeys("process_list") == ["limit", "sort_by"]
    ensures ArgumentKeys("find_process") == ["name"] && ArgumentKeys("inspect_process") == ["pid"]
  {
  }

  lemma ContainerArguments(tool: string)
    requires WritesContainer(tool)
    ensures ArgumentKeys(tool) == ["container"]
  {
    WritesByName(tool);
  }

  lemma UnitArguments(tool: string)
    requires WritesService(tool)
    ensures ArgumentKeys(tool) == ["service"]
  {
    WritesByName(tool);
  }

  lemma OthersTakeNone(tool: string)
    requires !IsWrite(tool)
    requires tool !in ["dns_lookup", "ping_host", "http_check", "port_check", "docker_inspect", "docker_logs",
                       "service_status", "is_service_enabled", "journal_logs", "disk_usage", "process_list",
                       "find_process", "inspect_process", "mongodb_atlas_connectivity", "recent_docker_events"]
    ensures ArgumentKeys(tool) == []
  {
    WritesByName(tool);
  }

  // --- What is enforced ---

  /** The administrator listed the target for writes, and this tool for the target. */
  predicate Granted(config: Config, tool: string, target: string) {
    && target in (if WritesContainer(tool) then config.writeContainers else config.writeServices)
    && target in config.allowed && tool in config.allowed[target]
  }

  lemma GrantedExactly(config: Config, tool: string, target: string)
    ensures target in ActionTargets(config, tool) <==> Granted(config, tool, target)
  {
    WritesByName(tool);
  }

  /** The write of this target passes. */
  predicate Writable(config: Config, tool: string, target: string) {
    && Granted(config, tool, target)
    && (WritesService(tool) ==> !Untouchable(target) && !(tool == "stop_service" && target == "cloudflared"))
  }

  lemma BlockedExactly(tool: string, target: string)
    ensures target in Blocked(tool) <==> Untouchable(target) || (tool == "stop_service" && target == "cloudflared")
  {
    UntouchableExactly(target);
    assert PROTECTED + ["cloudflared"] == PROTECTED + ["cloudflared"][..];
  }

  /** A write whose one argument names a target is in scope exactly when that target is writable by that tool. */
  lemma WriteScopeExactly(config: Config, tool: string, key: string, target: string)
    requires (WritesContainer(tool) && key == "container") || (WritesService(tool) && key == "service")
    ensures InScope(config, tool, [Field(key, JStr(target))]) <==> Writable(config, tool, target)
  {
    var arguments := [Field(key, JStr(target))];
    OnlyField(key, JStr(target));
    WritesByName(tool);
    GrantedExactly(config, tool, target);
    BlockedExactly(tool, target);
  }

  lemma OnlyField(key: string, value: Json)
    ensures var f := [Field(key, value)];
      Has(f, key) && Get(f, key) == value && forall k :: k != key ==> !Has(f, k)
  {
  }

  /** The argument, where the call has it, is one of the listed texts. */
  predicate Listed(arguments: seq<Field>, key: string, values: seq<string>) {
    Has(arguments, key) ==> exists x | x in values :: Get(arguments, key) == JStr(x)
  }

  /** A diagnostic is in scope exactly when every name it gives is listed: hosts, containers, units, URLs or
      the names of container endpoints, and paths; an Atlas check needs a listed seed, and a port check a
      listed pair. */
  lemma ReadScopeExactly(config: Config, tool: string, arguments: seq<Field>)
    requires !IsWrite(tool)
    ensures InScope(config, tool, arguments) <==>
      && Listed(arguments, "hostname", config.hosts) && Listed(arguments, "container", config.containers)
      && Listed(arguments, "service", config.services) && Listed(arguments, "path", config.diskPaths)
      && (Has(arguments, "url") ==>
          || (exists x | x in config.httpUrls :: Get(arguments, "url") == JStr(x))
          || (exists e | e in config.containerHttp :: Get(arguments, "url") == JStr(e.0)))
      && (tool == "mongodb_atlas_connectivity" ==>
          Has(arguments, "seed") && Listed(arguments, "seed", config.atlasSeeds))
      && (tool == "port_check" ==>
          && Has(arguments, "host") && Has(arguments, "port")
          && exists p | p in config.tcpTargets ::
               Get(arguments, "host") == JStr(p.0) && Get(arguments, "port") == JInt(p.1))
  {
    WritesByName(tool);
    WithinExactly(arguments, "hostname", config.hosts);
    WithinExactly(arguments, "container", config.containers);
    WithinExactly(arguments, "service", config.services);
    WithinExactly(arguments, "path", config.diskPaths);
    WithinExactly(arguments, "seed", config.atlasSeeds);
    UrlExactly(config, arguments);
    PortExactly(config.tcpTargets, arguments);
  }

  lemma WithinExactly(arguments: seq<Field>, key: string, values: seq<string>)
    ensures Within(arguments, key, values) <==> Listed(arguments, key, values)
  {
  }

  lemma AliasesExactly(endpoints: seq<(string, string)>, x: string)
    ensures x in Aliases(endpoints) <==> exists e | e in endpoints :: e.0 == x
  {
    if e :| e in endpoints && e.0 == x {
      var i :| 0 <= i < |endpoints| && endpoints[i] == e;
      assert Aliases(endpoints)[i] == x;
    }
  }

  lemma UrlExactly(config: Config, arguments: seq<Field>)
    ensures Within(arguments, "url", config.httpUrls + Aliases(config.containerHttp)) <==>
      (Has(arguments, "url") ==>
        || (exists x | x in config.httpUrls :: Get(arguments, "url") == JStr(x))
        || (exists e | e in config.containerHttp :: Get(arguments, "url") == JStr(e.0)))
  {
    if Has(arguments, "url") && Get(arguments, "url").JStr? {
      AliasesExactly(config.containerHttp, Get(arguments, "url").s);
    }
  }

  /** Every pair is advertised by itself; without any, nothing is accepted, and the list is never empty. */
  lemma PairsExactly(targets: seq<(string, int)>)
    ensures if targets == [] then Pairs(targets) == [JObj([Field("not", JObj([]))])]
      else |Pairs(targets)| == |targets| && forall i :: 0 <= i < |targets| ==>
        Pairs(targets)[i] == JObj([Field("properties", JObj([
          Field("host", JObj([Field("const", JStr(targets[i].0))])),
          Field("port", JObj([Field("const", JInt(targets[i].1))]))]))])
  {
  }

  lemma PortExactly(targets: seq<(string, int)>, arguments: seq<Field>)
    ensures PortIn(targets, arguments) <==>
      && Has(arguments, "host") && Has(arguments, "port")
      && exists p | p in targets :: Get(arguments, "host") == JStr(p.0) && Get(arguments, "port") == JInt(p.1)
  {
  }

  /** The targets the backend may act on by itself are those granted to this tool and listed as autonomous for it. */
  lemma AutonomousExactly(config: Config, tool: string, target: string)
    ensures target in AutonomousTargets(config, tool) <==>
      Granted(config, tool, target) && target in config.autonomous && tool in config.autonomous[target]
  {
    GrantedExactly(config, tool, target);
  }

  // --- Which configurations are accepted ---

  predicate NoneTwice(s: seq<string>) {
    forall i, j | 0 <= i < j < |s| :: s[i] != s[j]
  }

  /** The tools a policy may grant on the target: the writes of the kind it is listed as. */
  predicate Grantable(config: Config, target: string, tool: string) {
    if target in config.writeContainers then WritesContainer(tool)
    else target in config.writeServices && WritesService(tool)
  }

  predicate PolicySound(config: Config, target: string) {
    && target in config.allowed && config.allowed[target] != [] && NoneTwice(config.allowed[target])
    && (target in config.writeContainers || target in config.writeServices)
    && (forall a | a in config.allowed[target] :: Grantable(config, target, a))
    && !Untouchable(target) && !(target == "cloudflared" && "stop_service" in config.allowed[target])
  }

  predicate AutonomySound(config: Config, target: string) {
    && target in config.autonomous && config.autonomous[target] != []
    && forall a | a in config.autonomous[target] ::
         target in config.allowed && a in config.allowed[target] && a != "stop_container" && a != "stop_service"
  }

  lemma PolicyExactly(config: Config, target: string)
    requires target in config.allowed
    ensures AllowedPolicy(config, target, config.allowed[target]) <==> PolicySound(config, target)
  {
    UntouchableExactly(target);
    forall a: string
      ensures (a in CONTAINER_WRITES <==> WritesContainer(a)) && (a in SERVICE_WRITES <==> WritesService(a))
    {
      WritesByName(a);
    }
  }

  lemma StopsByName(tool: string)
    requires WritesContainer(tool) || WritesService(tool)
    ensures IsStop(tool) <==> tool == "stop_container" || tool == "stop_service"
  {
    if tool == "stop_container" || tool == "stop_service" {
      assert tool[..5] == "stop_";
    } else {
      assert tool[0] == 'r' || tool[2] == 'a';
    }
  }

  lemma AutonomyExactly(config: Config, target: string)
    requires target in config.autonomous && (target in config.allowed ==> PolicySound(config, target))
    ensures AutonomousPolicy(config, target, config.autonomous[target]) <==> AutonomySound(config, target)
  {
    forall a | a in config.autonomous[target] && target in config.allowed && a in config.allowed[target]
      ensures IsStop(a) <==> a == "stop_container" || a == "stop_service"
    {
      assert Grantable(config, target, a);
      StopsByName(a);
    }
  }

  /** A configuration is accepted exactly when its write targets are readable, every policy grants writes of its
      target's kind, once each, and nothing on what the host must keep, what is autonomous is a granted start or
      restart, and endpoints are of listed containers. */
  lemma AcceptedExactly(config: Config)
    ensures Accepted(config) <==>
      && NoneTwice(config.atlasSeeds)
      && (forall c | c in config.writeContainers :: c in config.containers)
      && (forall s | s in config.writeServices :: s in config.services)
      && (forall t | t in config.allowed.Keys :: PolicySound(config, t))
      && (forall t | t in config.autonomous.Keys :: AutonomySound(config, t))
      && (forall e | e in config.containerHttp :: e.1 in config.containers)
  {
    forall t | t in config.allowed.Keys
      ensures AllowedPolicy(config, t, config.allowed[t]) <==> PolicySound(config, t)
    {
      PolicyExactly(config, t);
    }
    if forall t | t in config.allowed.Keys :: PolicySound(config, t) {
      forall t | t in config.autonomous.Keys
        ensures AutonomousPolicy(config, t, config.autonomous[t]) <==> AutonomySound(config, t)
      {
        AutonomyExactly(config, t);
      }
    }
  }
}
