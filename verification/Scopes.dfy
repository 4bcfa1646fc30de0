/** The gateway's allowlists: what the configuration validator admits, what the tool registry
    advertises, and what is enforced before a tool runs. */
module Scopes {
  import opened JsonValues
  import opened Schema
  import opened Strings
  import opened Tools
  import N = Narrowing

  datatype Config = Config(
    containers: seq<string>, services: seq<string>, hosts: seq<string>, httpUrls: seq<string>,
    containerHttp: seq<(string, string)>,  // endpoint alias, container
    tcpTargets: seq<(string, int)>, atlasSeeds: seq<string>, diskPaths: seq<string>,
    writeContainers: seq<string>, writeServices: seq<string>,
    allowed: map<string, seq<string>>, autonomous: map<string, seq<string>>)

  const PROTECTED: seq<string> := ["docker", "ssh", "sshd", "tailscaled"]

  // --- GatewayConfig.validate_scopes ---

  function Category(config: Config, target: string): seq<string> {
    if target in config.writeContainers then CONTAINER_WRITES else SERVICE_WRITES
  }

  predicate AllowedPolicy(config: Config, target: string, actions: seq<string>) {
    && target in config.writeContainers + config.writeServices && actions != [] && Distinct(actions)
    && (forall a | a in actions :: a in Category(config, target))
    && target !in PROTECTED && !(target == "cloudflared" && "stop_service" in actions)
  }

  predicate AutonomousPolicy(config: Config, target: string, actions: seq<string>) {
    && actions != []
    && (forall a | a in actions :: target in config.allowed && a in config.allowed[target])
    && (forall a | a in actions :: !IsStop(a))
  }

  /** The policy rules of the validator. */
  predicate Accepted(config: Config) {
    && Distinct(config.atlasSeeds)
    && (forall c | c in config.writeContainers :: c in config.containers)
    && (forall s | s in config.writeServices :: s in config.services)
    && (forall t | t in config.allowed.Keys :: AllowedPolicy(config, t, config.allowed[t]))
    && (forall t | t in config.autonomous.Keys :: AutonomousPolicy(config, t, config.autonomous[t]))
    && (forall e | e in config.containerHttp :: e.1 in config.containers)
  }

  // --- Targets ---

  function Keep(targets: seq<string>, keep: string -> bool): (r: seq<string>)
    ensures forall x :: x in r <==> x in targets && keep(x)
  {
    if targets == [] then []
    else
      assert targets == [targets[0]] + targets[1..];
      if keep(targets[0]) then [targets[0]] + Keep(targets[1..], keep) else Keep(targets[1..], keep)
  }

  function ActionTargets(config: Config, tool: string): (r: seq<string>)
  {
    Keep(if tool in CONTAINER_WRITES then config.writeContainers else config.writeServices,
         t => t in config.allowed && tool in config.allowed[t])
  }

  function Blocked(tool: string): seq<string> {
    if tool == "stop_service" then PROTECTED + ["cloudflared"] else PROTECTED
  }

  /** The names of a tool's arguments. */
  function ArgumentKeys(tool: string): seq<string> {
    if tool == "dns_lookup" then ["hostname"]
    else if tool == "ping_host" then ["hostname", "count"]
    else if tool == "http_check" then ["url"]
    else if tool == "docker_inspect" then ["container"]
    else if tool == "docker_logs" then ["container", "lines"]
    else if tool == "service_status" || tool == "is_service_enabled" then ["service"]
    else if tool == "journal_logs" then ["service", "lines"]
    else if tool == "disk_usage" then ["path"]
    else if tool == "process_list" then ["limit", "sort_by"]
    else if tool == "find_process" then ["name"]
    else if tool == "inspect_process" then ["pid"]
    else if tool == "port_check" then ["host", "port"]
    else if tool == "mongodb_atlas_connectivity" then ["seed"]
    else if tool == "recent_docker_events" then ["minutes"]
    else if tool in CONTAINER_WRITES then ["container"]
    else if tool in SERVICE_WRITES then ["service"]
    else []
  }

  // --- metadata: what is advertised ---

  /** The values `metadata` advertises for an argument, if it restricts that argument by itself. */
  function Advertised(config: Config, tool: string, key: string): Option<seq<string>> {
    if key == "hostname" then Some(config.hosts)
    else if key == "container" then Some(if tool in WRITE_TOOLS then ActionTargets(config, tool) else config.containers)
    else if key == "service" then
      Some(if tool in WRITE_TOOLS then Keep(ActionTargets(config, tool), t => t !in Blocked(tool)) else config.services)
    else if key == "url" then Some(config.httpUrls + Aliases(config.containerHttp))
    else if key == "seed" then Some(config.atlasSeeds)
    else if key == "path" then Some(config.diskPaths)
    else None
  }

  function Aliases(endpoints: seq<(string, string)>): seq<string> {
    seq(|endpoints|, i requires 0 <= i < |endpoints| => endpoints[i].0)
  }

  function Texts(values: seq<string>): (r: Json)
    ensures r.JArr? && |r.items| == |values| && forall i :: 0 <= i < |values| ==> r.items[i] == JStr(values[i])
  {
    JArr(seq(|values|, i requires 0 <= i < |values| => JStr(values[i])))
  }

  /** `properties[key]["enum"] = …` for every restricted argument. */
  function Restrict(config: Config, tool: string, properties: seq<Field>): (r: seq<Field>)
    requires forall p :: p in properties ==> p.value.JObj?
    ensures |r| == |properties|
    ensures forall i :: 0 <= i < |r| ==> r[i] == Restricted(config, tool, properties[i])
  {
    if properties == [] then [] else [Restricted(config, tool, properties[0])] + Restrict(config, tool, properties[1..])
  }

  function Restricted(config: Config, tool: string, p: Field): Field
    requires p.value.JObj?
  {
    match Advertised(config, tool, p.key)
    case None => p
    case Some(values) => Field(p.key, JObj(Put(p.value.fields, "enum", Texts(values))))
  }

  function Pair(target: (string, int)): Json {
    JObj([Field("properties", JObj([Field("host", JObj([Field("const", JStr(target.0))])),
                                    Field("port", JObj([Field("const", JInt(target.1))]))]))])
  }

  function Pairs(targets: seq<(string, int)>): seq<Json> {
    if targets == [] then [JObj([Field("not", JObj([]))])]
    else seq(|targets|, i requires 0 <= i < |targets| => Pair(targets[i]))
  }

  /** An argument model's schema: the properties, all of the model's own rules in `rest`. */
  function Model(properties: seq<Field>, required: Json): Json {
    JObj([Field("additionalProperties", JBool(false)), Field("properties", JObj(properties)),
          Field("required", required), Field("type", JStr("object"))])
  }

  function Parameters(config: Config, tool: string, properties: seq<Field>, required: Json): Json
    requires forall p :: p in properties ==> p.value.JObj?
  {
    var schema := Model(Restrict(config, tool, properties), required);
    if tool == "port_check" then JObj(schema.fields + [Field("anyOf", JArr(Pairs(config.tcpTargets)))]) else schema
  }

  /** The pairs the gateway lets the backend authorize by itself. */
  function AutonomousTargets(config: Config, tool: string): seq<string> {
    Keep(ActionTargets(config, tool), t => t in config.autonomous && tool in config.autonomous[t])
  }

  // --- validate_scope: what is enforced ---

  /** `arguments[key]` is one of the allowed values. */
  predicate Within(arguments: seq<Field>, key: string, allowed: seq<string>) {
    Has(arguments, key) ==> Get(arguments, key).JStr? && Get(arguments, key).s in allowed
  }

  predicate InScope(config: Config, tool: string, arguments: seq<Field>) {
    && Within(arguments, "hostname", config.hosts)
    && Within(arguments, "container", if tool in CONTAINER_WRITES then ActionTargets(config, tool)
       else config.containers)
    && Within(arguments, "service", if tool in SERVICE_WRITES then ActionTargets(config, tool) else config.services)
    && (tool in SERVICE_WRITES && Has(arguments, "service") ==>
        Get(arguments, "service").JStr? && Get(arguments, "service").s !in Blocked(tool))
    && Within(arguments, "url", config.httpUrls + Aliases(config.containerHttp))
    && Within(arguments, "path", config.diskPaths)
    && (tool == "mongodb_atlas_connectivity" ==> Has(arguments, "seed") && Within(arguments, "seed", config.atlasSeeds))
    && (tool == "port_check" ==> PortIn(config.tcpTargets, arguments))
  }

  // --- What is advertised is what is enforced ---

  /** The names that carry a target restriction. */
  const TARGETS: seq<string> := ["hostname", "container", "service", "url", "seed", "path"]

  lemma OnlyTargetsAdvertised(config: Config, tool: string, key: string)
    requires Advertised(config, tool, key).Some?
    ensures key in TARGETS
  {
    assert TARGETS[0] == "hostname" && TARGETS[1] == "container" && TARGETS[2] == "service";
    assert TARGETS[3] == "url" && TARGETS[4] == "seed" && TARGETS[5] == "path";
  }

  /** The properties of a tool's argument model: its arguments, the targets not restricted yet. */
  predicate Declares(tool: string, properties: seq<Field>) {
    && UniqueKeys(properties) && |properties| == |ArgumentKeys(tool)|
    && forall i | 0 <= i < |properties| ::
      properties[i].key == ArgumentKeys(tool)[i] && properties[i].value.JObj?
      && (properties[i].key in TARGETS ==> !Has(properties[i].value.fields, "enum"))
  }

  /** Defaults are filled in: every argument is present. */
  predicate Complete(properties: seq<Field>, arguments: seq<Field>) {
    UniqueKeys(arguments) && forall p | p in properties :: Has(arguments, p.key)
  }

  /** Equality of instances does not confuse texts or numbers. */
  ghost predicate Plainly(same: (Json, Json) -> bool) {
    forall a, b: Json :: b.JStr? || b.JInt? ==> same(a, b) == (a == b)
  }

  lemma {:induction false} PutAppends(fields: seq<Field>, key: string, value: Json)
    requires !Has(fields, key)
    ensures Put(fields, key, value) == fields + [Field(key, value)]
  {
    if fields != [] { PutAppends(fields[1..], key, value); }
  }

  /** A keyword added at the end conjoins its assertion, if the others do not read it. */
  lemma AppendVerdict(scope: Scope, fields: seq<Field>, g: Field, v: Json)
    requires N.SameSiblings(fields, fields + [g])
    ensures Valid(scope, JObj(fields + [g]), v) <==> Valid(scope, JObj(fields), v) && Keyword(scope, fields + [g], g, v)
  {
    var fields' := fields + [g];
    assert fields'[|fields|] == g;
    forall f | f in fields ensures f in fields' && Keyword(scope, fields, f, v) == Keyword(scope, fields', f, v) {
      N.KeywordSiblings(scope, fields, fields', f, v);
    }
    assert forall f :: f in fields' <==> f in fields || f == g;
  }

  lemma StringsVerdict(same: (Json, Json) -> bool, values: seq<string>, x: Json)
    requires Plainly(same)
    ensures (exists e | e in Texts(values).items :: same(x, e)) <==> x.JStr? && x.s in values
  {
    if x.JStr? && x.s in values {
      var k :| 0 <= k < |values| && values[k] == x.s;
      assert Texts(values).items[k] == x && same(x, x);
    }
  }

  /** An enum of texts, added to a schema that has none, admits exactly the listed ones. */
  lemma EnumAdded(scope: Scope, fields: seq<Field>, values: seq<string>, x: Json)
    requires Plainly(scope.sem.same) && !Has(fields, "enum")
    ensures Valid(scope, JObj(Put(fields, "enum", Texts(values))), x)
      <==> Valid(scope, JObj(fields), x) && x.JStr? && x.s in values
  {
    var added := Field("enum", Texts(values));
    PutAppends(fields, "enum", Texts(values));
    N.SiblingsAfterPut(fields, Texts(values));
    AppendVerdict(scope, fields, added, x);
    assert (fields + [added])[|fields|] == added;
    N.EnumVerdict(scope, fields + [added], Texts(values).items, x);
    StringsVerdict(scope.sem.same, values, x);
  }

  lemma RestrictedVerdict(scope: Scope, config: Config, tool: string, p: Field, x: Json)
    requires Plainly(scope.sem.same) && p.value.JObj? && (p.key in TARGETS ==> !Has(p.value.fields, "enum"))
    ensures var a := Advertised(config, tool, p.key);
      Valid(scope, Restricted(config, tool, p).value, x)
      <==> Valid(scope, p.value, x) && (a.Some? ==> x.JStr? && x.s in a.value)
  {
    var a := Advertised(config, tool, p.key);
    if a.Some? {
      OnlyTargetsAdvertised(config, tool, p.key);
      EnumAdded(scope, p.value.fields, a.value, x);
    }
  }

  predicate Listed(properties: seq<Field>, arguments: seq<Field>) {
    forall j | 0 <= j < |arguments| :: Has(properties, arguments[j].key)
  }

  predicate RequiredHeld(required: Json, arguments: seq<Field>) {
    required.JArr? ==> forall r | r in required.items :: r.JStr? ==> Has(arguments, r.s)
  }

  lemma ListedVerdict(scope: Scope, properties: seq<Field>, required: Json, arguments: seq<Field>)
    ensures var fields := Model(properties, required).fields;
      fields[0] in fields && Keyword(scope, fields, fields[0], JObj(arguments)) == Listed(properties, arguments)
  {
    var fields, v, sem := Model(properties, required).fields, JObj(arguments), scope.sem;
    assert KindOf("additionalProperties").Child?;
    assert Named(fields, "properties") == properties && Named(fields, "patternProperties") == [];
    assert forall k :: Covered(sem, fields, k) == Has(properties, k);
    var covered := (k: string) => Covered(sem, fields, k);
    assert Keyword(scope, fields, fields[0], v)
      == Below(scope, "additionalProperties", JBool(false), PrefixLength(fields), covered, v);
    assert forall i | 0 <= i < |arguments| :: covered(arguments[i].key) == Has(properties, arguments[i].key);
  }

  lemma RequiredVerdict(scope: Scope, properties: seq<Field>, required: Json, arguments: seq<Field>)
    ensures var fields := Model(properties, required).fields;
      fields[2] in fields && Keyword(scope, fields, fields[2], JObj(arguments)) == RequiredHeld(required, arguments)
  {
    assert KindOf("required").Plain?;
  }

  lemma TypeVerdict(scope: Scope, properties: seq<Field>, required: Json, arguments: seq<Field>)
    ensures var fields := Model(properties, required).fields;
      fields[3] in fields && Keyword(scope, fields, fields[3], JObj(arguments))
  {
    assert KindOf("type").Plain?;
    assert HasType(JStr("object"), JObj(arguments));
  }

  /** What an argument model accepts. */
  lemma ModelVerdict(scope: Scope, properties: seq<Field>, required: Json, arguments: seq<Field>)
    ensures Valid(scope, Model(properties, required), JObj(arguments)) <==>
      && ByName(scope, "properties", properties, JObj(arguments)) && Listed(properties, arguments)
      && RequiredHeld(required, arguments)
  {
    var fields, v := Model(properties, required).fields, JObj(arguments);
    ListedVerdict(scope, properties, required, arguments);
    RequiredVerdict(scope, properties, required, arguments);
    TypeVerdict(scope, properties, required, arguments);
    assert fields[1] in fields;
    N.PropertiesKeyword(scope, fields, properties, v);
    N.ByIndex(scope, fields, 1, v);
  }

  /** Every argument the registry restricts is within its advertised values. */
  predicate WithinAdvertised(config: Config, tool: string, properties: seq<Field>, arguments: seq<Field>) {
    forall i | 0 <= i < |properties| :: Advertised(config, tool, properties[i].key).Some?
      ==> Within(arguments, properties[i].key, Advertised(config, tool, properties[i].key).value)
  }

  lemma RestrictVerdict(scope: Scope, config: Config, tool: string, properties: seq<Field>, required: Json,
                        arguments: seq<Field>)
    requires Plainly(scope.sem.same) && Declares(tool, properties) && Complete(properties, arguments)
    ensures Valid(scope, Model(Restrict(config, tool, properties), required), JObj(arguments)) <==>
      && Valid(scope, Model(properties, required), JObj(arguments))
      && WithinAdvertised(config, tool, properties, arguments)
  {
    var restricted := Restrict(config, tool, properties);
    ModelVerdict(scope, properties, required, arguments);
    ModelVerdict(scope, restricted, required, arguments);
    forall i | 0 <= i < |properties|
      ensures Has(arguments, properties[i].key) && restricted[i].key == properties[i].key
      ensures var a := Advertised(config, tool, properties[i].key);
        Valid(scope, restricted[i].value, Get(arguments, properties[i].key)) ==
        (Valid(scope, properties[i].value, Get(arguments, properties[i].key))
         && (a.Some? ==> Within(arguments, properties[i].key, a.value)))
    {
      assert properties[i] in properties;
      RestrictedVerdict(scope, config, tool, properties[i], Get(arguments, properties[i].key));
    }
    forall k ensures Has(restricted, k) == Has(properties, k) {
      SameKeysHas(properties, restricted, k);
    }
  }

  lemma SameKeysHas(a: seq<Field>, b: seq<Field>, k: string)
    requires |a| == |b| && forall i :: 0 <= i < |a| ==> a[i].key == b[i].key
    ensures Has(a, k) == Has(b, k)
  {
    var i, j := IndexOf(a, k), IndexOf(b, k);
  }

  predicate PortIn(targets: seq<(string, int)>, arguments: seq<Field>) {
    && Has(arguments, "host") && Get(arguments, "host").JStr? && Has(arguments, "port") && Get(arguments, "port").JInt?
    && (Get(arguments, "host").s, Get(arguments, "port").n) in targets
  }

  /** The pairs of a port check. */
  lemma PairsVerdict(scope: Scope, targets: seq<(string, int)>, arguments: seq<Field>)
    requires Plainly(scope.sem.same) && Has(arguments, "host") && Has(arguments, "port")
    ensures Branches(scope, "anyOf", Pairs(targets), JObj(arguments)) <==> PortIn(targets, arguments)
  {
    var v, items := JObj(arguments), Pairs(targets);
    if targets == [] {
      NothingAccepted(scope, v);
      assert forall i | 0 <= i < |items| :: !Valid(scope, items[i], v);
    } else {
      forall i | 0 <= i < |items|
        ensures Valid(scope, items[i], v)
          <==> Get(arguments, "host") == JStr(targets[i].0) && Get(arguments, "port") == JInt(targets[i].1)
      {
        PairVerdict(scope, targets[i], arguments);
      }
    }
  }

  lemma NothingAccepted(scope: Scope, v: Json)
    ensures !Valid(scope, JObj([Field("not", JObj([]))]), v)
  {
    var fields := [Field("not", JObj([]))];
    assert fields[0] in fields && KindOf("not").Child? && Valid(scope, JObj([]), v);
    assert !Keyword(scope, fields, fields[0], v);
  }

  lemma ConstVerdict(scope: Scope, c: Json, x: Json)
    ensures Valid(scope, JObj([Field("const", c)]), x) == scope.sem.same(x, c)
  {
    var fields := [Field("const", c)];
    assert fields[0] in fields && KindOf("const").Plain?;
    assert Keyword(scope, fields, fields[0], x) == scope.sem.same(x, c);
  }

  lemma PairVerdict(scope: Scope, target: (string, int), arguments: seq<Field>)
    requires Plainly(scope.sem.same) && Has(arguments, "host") && Has(arguments, "port")
    ensures Valid(scope, Pair(target), JObj(arguments))
      <==> (Get(arguments, "host") == JStr(target.0) && Get(arguments, "port") == JInt(target.1))
  {
    var named := Pair(target).fields[0].value.fields;
    var fields, v := [Field("properties", JObj(named))], JObj(arguments);
    assert fields[0] in fields;
    N.PropertiesKeyword(scope, fields, named, v);
    ConstVerdict(scope, JStr(target.0), Get(arguments, "host"));
    ConstVerdict(scope, JInt(target.1), Get(arguments, "port"));
    assert named[0].key == "host" && named[1].key == "port";
    assert ByName(scope, "properties", named, v)
      == (Valid(scope, named[0].value, Get(arguments, "host")) && Valid(scope, named[1].value, Get(arguments, "port")));
  }

  /** Adding "anyOf" to an argument model conjoins it. */
  lemma PairsAdded(scope: Scope, properties: seq<Field>, required: Json, items: seq<Json>, arguments: seq<Field>)
    ensures var model := Model(properties, required).fields;
      Valid(scope, JObj(model + [Field("anyOf", JArr(items))]), JObj(arguments))
      <==> Valid(scope, JObj(model), JObj(arguments)) && Branches(scope, "anyOf", items, JObj(arguments))
  {
    var model, added := Model(properties, required).fields, Field("anyOf", JArr(items));
    AnyOfSiblings(model, JArr(items));
    AppendVerdict(scope, model, added, JObj(arguments));
    assert (model + [added])[|model|] == added;
    AnyOfKeyword(scope, model + [added], items, JObj(arguments));
  }

  lemma AnyOfKeyword(scope: Scope, fields: seq<Field>, items: seq<Json>, v: Json)
    requires Field("anyOf", JArr(items)) in fields
    ensures Keyword(scope, fields, Field("anyOf", JArr(items)), v) == Branches(scope, "anyOf", items, v)
  {
    assert KindOf("anyOf").Branch?;
  }

  lemma AnyOfSiblings(model: seq<Field>, items: Json)
    requires !Has(model, "anyOf")
    ensures N.SameSiblings(model, model + [Field("anyOf", items)])
  {
    PutAppends(model, "anyOf", items);
    N.LookupAfterPut(model, "anyOf", items, "prefixItems");
    N.LookupAfterPut(model, "anyOf", items, "patternProperties");
    N.LookupAfterPut(model, "anyOf", items, "if");
    N.LookupAfterPut(model, "anyOf", items, "properties");
  }

  predicate OnlyDeclared(tool: string, arguments: seq<Field>) {
    forall k | k in TARGETS :: Has(arguments, k) ==> k in ArgumentKeys(tool)
  }

  lemma ListedIsDeclared(tool: string, properties: seq<Field>, arguments: seq<Field>)
    requires Declares(tool, properties) && Listed(properties, arguments)
    ensures OnlyDeclared(tool, arguments)
  {
    forall k | k in TARGETS && Has(arguments, k) ensures k in ArgumentKeys(tool) {
      assert Has(properties, arguments[IndexOf(arguments, k)].key);
      assert properties[IndexOf(properties, k)].key == k;
    }
  }

  predicate WithinTargets(config: Config, tool: string, arguments: seq<Field>) {
    forall k | k in TARGETS :: WithinValue(config, tool, arguments, k)
  }

  lemma WithinByName(config: Config, tool: string, properties: seq<Field>, arguments: seq<Field>)
    requires Declares(tool, properties) && Complete(properties, arguments) && OnlyDeclared(tool, arguments)
    ensures WithinTargets(config, tool, arguments) <==> WithinAdvertised(config, tool, properties, arguments)
  {
    if WithinTargets(config, tool, arguments) {
      forall i | 0 <= i < |properties| && Advertised(config, tool, properties[i].key).Some?
        ensures Within(arguments, properties[i].key, Advertised(config, tool, properties[i].key).value)
      {
        WithinOneTarget(config, tool, arguments, properties[i].key);
      }
    }
    if WithinAdvertised(config, tool, properties, arguments) {
      forall k | k in TARGETS ensures WithinValue(config, tool, arguments, k) {
        if Has(arguments, k) {
          var i := PropertyOf(tool, properties, k);
          WithinOneProperty(config, tool, properties, arguments, i);
        }
      }
    }
  }

  lemma WithinOneTarget(config: Config, tool: string, arguments: seq<Field>, k: string)
    requires WithinTargets(config, tool, arguments) && Advertised(config, tool, k).Some?
    ensures Within(arguments, k, Advertised(config, tool, k).value)
  {
    OnlyTargetsAdvertised(config, tool, k);
    assert WithinValue(config, tool, arguments, k);
  }

  lemma WithinOneProperty(config: Config, tool: string, properties: seq<Field>, arguments: seq<Field>, i: nat)
    requires WithinAdvertised(config, tool, properties, arguments) && i < |properties|
    ensures WithinValue(config, tool, arguments, properties[i].key)
  {
  }

  lemma PropertyOf(tool: string, properties: seq<Field>, k: string) returns (i: nat)
    requires Declares(tool, properties) && k in ArgumentKeys(tool)
    ensures i < |properties| && properties[i].key == k
  {
    i :| 0 <= i < |ArgumentKeys(tool)| && ArgumentKeys(tool)[i] == k;
  }

  lemma KeysByTool(tool: string)
    ensures "container" in ArgumentKeys(tool) ==> tool !in SERVICE_WRITES
    ensures "service" in ArgumentKeys(tool) ==> tool !in CONTAINER_WRITES
    ensures "seed" in ArgumentKeys(tool) <==> tool == "mongodb_atlas_connectivity"
    ensures tool == "port_check" ==> ArgumentKeys(tool) == ["host", "port"]
  {
    ContainerKey(tool);
    ServiceKey(tool);
    SeedKey(tool);
  }

  lemma ContainerKey(tool: string)
    ensures "container" in ArgumentKeys(tool) ==> tool !in SERVICE_WRITES
  {
  }

  lemma ServiceKey(tool: string)
    ensures "service" in ArgumentKeys(tool) ==> tool !in CONTAINER_WRITES
  {
  }

  lemma SeedKey(tool: string)
    ensures "seed" in ArgumentKeys(tool) <==> tool == "mongodb_atlas_connectivity"
  {
  }

  /** For a tool's own arguments, the advertised values and the enforced ones coincide. */
  lemma TargetsInScope(config: Config, tool: string, arguments: seq<Field>)
    requires OnlyDeclared(tool, arguments) && (tool == "mongodb_atlas_connectivity" ==> Has(arguments, "seed"))
    ensures InScope(config, tool, arguments)
      <==> WithinTargets(config, tool, arguments) && (tool == "port_check" ==> PortIn(config.tcpTargets, arguments))
  {
    KeysByTool(tool);
    AdvertisedValues(config, tool);
    WithinEach(config, tool, arguments);
    assert "container" in TARGETS && "service" in TARGETS && "seed" in TARGETS;
  }

  lemma AdvertisedValues(config: Config, tool: string)
    ensures Advertised(config, tool, "hostname") == Some(config.hosts)
    ensures Advertised(config, tool, "container")
      == Some(if tool in WRITE_TOOLS then ActionTargets(config, tool) else config.containers)
    ensures Advertised(config, tool, "service") ==
      Some(if tool in WRITE_TOOLS then Keep(ActionTargets(config, tool), t => t !in Blocked(tool)) else config.services)
    ensures Advertised(config, tool, "url") == Some(config.httpUrls + Aliases(config.containerHttp))
    ensures Advertised(config, tool, "seed") == Some(config.atlasSeeds)
    ensures Advertised(config, tool, "path") == Some(config.diskPaths)
  {
  }

  predicate WithinValue(config: Config, tool: string, arguments: seq<Field>, k: string) {
    Advertised(config, tool, k).Some? ==> Within(arguments, k, Advertised(config, tool, k).value)
  }

  lemma WithinEach(config: Config, tool: string, arguments: seq<Field>)
    ensures WithinTargets(config, tool, arguments) ==
      (&& WithinValue(config, tool, arguments, "hostname") && WithinValue(config, tool, arguments, "container")
       && WithinValue(config, tool, arguments, "service") && WithinValue(config, tool, arguments, "url")
       && WithinValue(config, tool, arguments, "seed") && WithinValue(config, tool, arguments, "path"))
  {
    assert TARGETS[0] == "hostname" && TARGETS[1] == "container" && TARGETS[2] == "service";
    assert TARGETS[3] == "url" && TARGETS[4] == "seed" && TARGETS[5] == "path";
  }

  lemma DeclaredIsPresent(tool: string, properties: seq<Field>, arguments: seq<Field>, k: string)
    requires Declares(tool, properties) && Complete(properties, arguments) && k in ArgumentKeys(tool)
    ensures Has(arguments, k)
  {
    var i :| 0 <= i < |ArgumentKeys(tool)| && ArgumentKeys(tool)[i] == k;
    assert properties[i] in properties;
  }

  lemma WithinIsInScope(config: Config, tool: string, properties: seq<Field>, arguments: seq<Field>)
    requires Declares(tool, properties) && Complete(properties, arguments) && OnlyDeclared(tool, arguments)
    ensures InScope(config, tool, arguments) <==>
      && WithinAdvertised(config, tool, properties, arguments)
      && (tool == "port_check" ==> PortIn(config.tcpTargets, arguments))
  {
    KeysByTool(tool);
    if tool == "mongodb_atlas_connectivity" { DeclaredIsPresent(tool, properties, arguments, "seed"); }
    WithinByName(config, tool, properties, arguments);
    TargetsInScope(config, tool, arguments);
  }

  /** The schema a tool advertises accepts exactly the arguments that its own model accepts and
      that the gateway then admits. */
  lemma AdvertisedIsEnforced(scope: Scope, config: Config, tool: string, properties: seq<Field>, required: Json,
                             arguments: seq<Field>)
    requires Plainly(scope.sem.same) && Declares(tool, properties) && Complete(properties, arguments)
    ensures Valid(scope, Parameters(config, tool, properties, required), JObj(arguments))
      <==> Valid(scope, Model(properties, required), JObj(arguments)) && InScope(config, tool, arguments)
  {
    RestrictVerdict(scope, config, tool, properties, required, arguments);
    if Valid(scope, Model(properties, required), JObj(arguments)) {
      WithinWhenValid(scope, config, tool, properties, required, arguments);
    }
    if tool == "port_check" {
      PortVerdict(scope, config, properties, required, arguments);
    }
  }

  lemma WithinWhenValid(scope: Scope, config: Config, tool: string, properties: seq<Field>, required: Json,
                        arguments: seq<Field>)
    requires Declares(tool, properties) && Complete(properties, arguments)
    requires Valid(scope, Model(properties, required), JObj(arguments))
    ensures InScope(config, tool, arguments) <==>
      && WithinAdvertised(config, tool, properties, arguments)
      && (tool == "port_check" ==> PortIn(config.tcpTargets, arguments))
  {
    ModelVerdict(scope, properties, required, arguments);
    ListedIsDeclared(tool, properties, arguments);
    WithinIsInScope(config, tool, properties, arguments);
  }

  lemma PortVerdict(scope: Scope, config: Config, properties: seq<Field>, required: Json, arguments: seq<Field>)
    requires Plainly(scope.sem.same) && Declares("port_check", properties) && Complete(properties, arguments)
    ensures Valid(scope, Parameters(config, "port_check", properties, required), JObj(arguments)) <==>
      && Valid(scope, Model(Restrict(config, "port_check", properties), required), JObj(arguments))
      && PortIn(config.tcpTargets, arguments)
  {
    KeysByTool("port_check");
    DeclaredIsPresent("port_check", properties, arguments, "host");
    DeclaredIsPresent("port_check", properties, arguments, "port");
    PairsAdded(scope, Restrict(config, "port_check", properties), required, Pairs(config.tcpTargets), arguments);
    PairsVerdict(scope, config.tcpTargets, arguments);
  }

  // --- What may be done without an operator ---

  /** Under an accepted configuration no write reaches a protected service, so filtering the
      protected names out of the advertised targets removes nothing. */
  lemma WritesNeverReachProtected(config: Config, tool: string, target: string)
    requires Accepted(config) && target in ActionTargets(config, tool)
    ensures target !in Blocked(tool)
    ensures target in if tool in CONTAINER_WRITES then config.containers else config.services
  {
    assert AllowedPolicy(config, target, config.allowed[target]);
  }

  /** An autonomous pair is an advertised start or restart, inside the write and diagnostic
      allowlists, and never of a protected service. */
  lemma AutonomousIsAdvertised(config: Config, tool: string, target: string)
    requires Accepted(config) && tool in WRITE_TOOLS && target in AutonomousTargets(config, tool)
    ensures !IsStop(tool) && target !in PROTECTED
    ensures tool in CONTAINER_WRITES ==>
      target in Advertised(config, tool, "container").value && target in config.writeContainers
        && target in config.containers
    ensures tool in SERVICE_WRITES ==>
      target in Advertised(config, tool, "service").value && target in config.writeServices && target in config.services
  {
    WritesNeverReachProtected(config, tool, target);
    assert target in ActionTargets(config, tool) && target in config.autonomous && tool in config.autonomous[target];
    assert !IsStop(tool) by {
      assert AutonomousPolicy(config, target, config.autonomous[target]);
    }
    WritableIsReadable(config, tool, target);
  }

  /** What may be written may be read: the write scopes are within the read scopes. */
  lemma WritableIsReadable(config: Config, tool: string, target: string)
    requires Accepted(config) && target in ActionTargets(config, tool)
    ensures if tool in CONTAINER_WRITES then target in config.writeContainers && target in config.containers
            else target in config.writeServices && target in config.services
  {
  }

  /** A write that the gateway admits is of a target the administrator allowed that very tool. */
  lemma AdmittedWriteIsAllowed(config: Config, tool: string, arguments: seq<Field>)
    requires Accepted(config) && tool in WRITE_TOOLS && InScope(config, tool, arguments)
    ensures var key := if tool in CONTAINER_WRITES then "container" else "service";
      Has(arguments, key) ==>
        && Get(arguments, key).JStr?
        && var target := Get(arguments, key).s;
           target in config.allowed && tool in config.allowed[target] && target !in PROTECTED
  {
    var key := if tool in CONTAINER_WRITES then "container" else "service";
    if Has(arguments, key) {
      WritesNeverReachProtected(config, tool, Get(arguments, key).s);
    }
  }
}
