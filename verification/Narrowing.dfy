/** remaining_parameters: after each snapshot, the targets of a read tool that are still unseen. */
module Narrowing {
  import opened JsonValues
  import opened Schema
  import opened Strings

  datatype Tool = Tool(name: string, risk: string, parameters: Json)

  /** What the narrowing reads of an observation. */
  datatype Seen = Seen(tool: string, arguments: Json, remediation: bool)

  /** The observations after the last REMEDIATION. */
  function SinceWrite(observations: seq<Seen>): seq<Seen> {
    if observations == [] then []
    else
      var last := observations[|observations| - 1];
      if last.remediation then [] else SinceWrite(observations[..|observations| - 1]) + [last]
  }

  function Prior(tool: string, observations: seq<Seen>): seq<Json> {
    ArgumentsOf(tool, SinceWrite(observations))
  }

  function ArgumentsOf(tool: string, seen: seq<Seen>): seq<Json> {
    if seen == [] then []
    else (if seen[0].tool == tool then [seen[0].arguments] else []) + ArgumentsOf(tool, seen[1..])
  }

  /** schema.get('required', []): section 6.5.3 of the validation specification makes its elements
      distinct strings. */
  function RequiredKeys(schema: Json): seq<string> {
    match Lookup(schema, "required")
    case Some(JArr(items)) => TextsIn(items)
    case _ => []
  }

  function TextsIn(items: seq<Json>): seq<string> {
    if items == [] then [] else (if items[0].JStr? then [items[0].s] else []) + TextsIn(items[1..])
  }

  function Property(schema: Json, key: string): Json {
    match Lookup(schema, "properties")
    case Some(properties) => (match Lookup(properties, key) case Some(p) => p case None => JObj([]))
    case None => JObj([])
  }

  /** properties.get(key, {}).get('enum'), empty when there is none. */
  function Choice(schema: Json, key: string): seq<Json> {
    match Lookup(Property(schema, key), "enum")
    case Some(JArr(items)) => items
    case _ => []
  }

  function Choices(schema: Json, keys: seq<string>): (r: seq<seq<Json>>)
    ensures |r| == |keys|
    ensures forall i :: 0 <= i < |keys| ==> r[i] == Choice(schema, keys[i])
  {
    if keys == [] then [] else [Choice(schema, keys[0])] + Choices(schema, keys[1..])
  }

  function Count(choices: seq<seq<Json>>): nat {
    if choices == [] then 1 else |choices[0]| * Count(choices[1..])
  }

  /** itertools.product: the last position varies fastest. */
  function Product(choices: seq<seq<Json>>): seq<seq<Json>> {
    if choices == [] then [[]] else Spread(choices[0], Product(choices[1..]))
  }

  function Spread(values: seq<Json>, rest: seq<seq<Json>>): seq<seq<Json>> {
    if values == [] then [] else Prepend(values[0], rest) + Spread(values[1..], rest)
  }

  function Prepend(value: Json, rest: seq<seq<Json>>): seq<seq<Json>> {
    if rest == [] then [] else [[value] + rest[0]] + Prepend(value, rest[1..])
  }

  predicate Matches(same: (Json, Json) -> bool, keys: seq<string>, values: seq<Json>, earlier: Json)
    requires |keys| == |values|
  {
    forall i | 0 <= i < |keys| :: same(GetOrNull(earlier, keys[i]), values[i])
  }

  predicate Unseen(same: (Json, Json) -> bool, keys: seq<string>, values: seq<Json>, prior: seq<Json>)
    requires |keys| == |values|
  {
    forall p | p in prior :: !Matches(same, keys, values, p)
  }

  /** branch['properties'][key] = {**branch['properties'][key], 'enum': [value]} */
  function Restrict(schema: Json, key: string, value: Json): Json {
    if !schema.JObj? || !Property(schema, key).JObj? then schema
    else
      var property := JObj(Put(Property(schema, key).fields, "enum", JArr([value])));
      JObj(Put(schema.fields, "properties", JObj(Put(Named(schema.fields, "properties"), key, property))))
  }

  function Branch(schema: Json, keys: seq<string>, values: seq<Json>): Json
    requires |keys| == |values|
    decreases keys
  {
    if keys == [] then schema else Branch(Restrict(schema, keys[0], values[0]), keys[1..], values[1..])
  }

  /** One branch for every combination of targets that no earlier call of the tool used. */
  function Remaining(same: (Json, Json) -> bool, schema: Json, keys: seq<string>, combinations: seq<seq<Json>>,
                     prior: seq<Json>): seq<Json>
    requires forall c :: c in combinations ==> |c| == |keys|
  {
    if combinations == [] then []
    else
      var values := combinations[0];
      (if Unseen(same, keys, values, prior) then [Branch(schema, keys, values)] else [])
      + Remaining(same, schema, keys, combinations[1..], prior)
  }

  const LIMIT := 256

  /** Whether the remaining targets are enumerated: otherwise the schema is returned as it is, or not
      at all. */
  predicate Enumerated(tool: Tool, observations: seq<Seen>) {
    var keys := RequiredKeys(tool.parameters);
    var choices := Choices(tool.parameters, keys);
    && Prior(tool.name, observations) != [] && tool.risk == "READ_ONLY" && keys != []
    && (forall c | c in choices :: c != []) && Count(choices) <= LIMIT
  }

  function Narrowed(same: (Json, Json) -> bool, tool: Tool, observations: seq<Seen>): Option<Json> {
    var schema, prior := tool.parameters, Prior(tool.name, observations);
    var keys := RequiredKeys(schema);
    var choices := Choices(schema, keys);
    if prior == [] || tool.risk != "READ_ONLY" then Some(schema)
    else if keys == [] then None
    else if exists c | c in choices :: c == [] then Some(schema)
    else if Count(choices) > LIMIT then Some(schema)
    else
      ProductMembers(choices);
      var branches := Remaining(same, schema, keys, Product(choices), prior);
      if branches == [] then None else Some(JObj([Field("anyOf", JArr(branches))]))
  }

  // --- What counts as used, and when nothing is enumerated ---

  /** The call at place `j` was of this tool, and no remediation came at or after it. */
  predicate UsedAt(tool: string, observations: seq<Seen>, j: nat, v: Json) {
    && j < |observations| && observations[j].tool == tool && observations[j].arguments == v
    && forall k | j <= k < |observations| :: !observations[k].remediation
  }

  lemma {:induction false} SinceWriteExactly(observations: seq<Seen>) returns (k: nat)
    ensures k <= |observations| && SinceWrite(observations) == observations[k..]
    ensures forall j :: k <= j < |observations| ==> !observations[j].remediation
    ensures k > 0 ==> observations[k - 1].remediation
  {
    var last := |observations| - 1;
    if observations == [] || observations[last].remediation {
      k := |observations|;
    } else {
      k := SinceWriteExactly(observations[..last]);
      assert observations[k..] == observations[..last][k..] + [observations[last]];
    }
  }

  lemma {:induction false} ArgumentsOfExactly(tool: string, seen: seq<Seen>, v: Json)
    ensures v in ArgumentsOf(tool, seen)
      <==> exists j :: 0 <= j < |seen| && seen[j].tool == tool && seen[j].arguments == v
  {
    if seen != [] {
      ArgumentsOfExactly(tool, seen[1..], v);
      if j :| 0 < j < |seen| && seen[j].tool == tool && seen[j].arguments == v {
        assert seen[1..][j - 1] == seen[j];
      }
      if j :| 0 <= j < |seen[1..]| && seen[1..][j].tool == tool && seen[1..][j].arguments == v {
        assert seen[j + 1] == seen[1..][j];
      }
    }
  }

  /** The used arguments are those of the tool's calls after which nothing was remediated. */
  lemma UsedExactly(tool: string, observations: seq<Seen>, v: Json)
    ensures v in Prior(tool, observations) <==> exists j: nat :: UsedAt(tool, observations, j, v)
  {
    var since := SinceWrite(observations);
    var k := SinceWriteExactly(observations);
    ArgumentsOfExactly(tool, since, v);
    if j :| 0 <= j < |since| && since[j].tool == tool && since[j].arguments == v {
      assert UsedAt(tool, observations, k + j, v);
    }
    forall j: nat | UsedAt(tool, observations, j, v) ensures v in Prior(tool, observations) {
      assert j >= k && since[j - k] == observations[j];
    }
  }

  lemma {:induction false} TextsInExactly(items: seq<Json>, key: string)
    ensures key in TextsIn(items) <==> JStr(key) in items
  {
    if items != [] {
      TextsInExactly(items[1..], key);
      assert items == [items[0]] + items[1..];
    }
  }

  lemma {:induction false} CountExactly(choices: seq<seq<Json>>)
    ensures Count(choices) == |Product(choices)|
  {
    if choices != [] {
      CountExactly(choices[1..]);
      SpreadLength(choices[0], Product(choices[1..]));
    }
  }

  lemma {:induction false} SpreadLength(values: seq<Json>, rest: seq<seq<Json>>)
    ensures |Spread(values, rest)| == |values| * |rest|
  {
    if values != [] {
      PrependLength(values[0], rest);
      SpreadLength(values[1..], rest);
    }
  }

  lemma {:induction false} PrependLength(value: Json, rest: seq<seq<Json>>)
    ensures |Prepend(value, rest)| == |rest|
  {
    if rest != [] { PrependLength(value, rest[1..]); }
  }

  /** The tool was called, and nothing was remediated since. */
  ghost predicate Used(tool: string, observations: seq<Seen>) {
    exists j: nat, v: Json :: UsedAt(tool, observations, j, v)
  }

  lemma UsedSome(tool: string, observations: seq<Seen>)
    ensures Prior(tool, observations) != [] <==> Used(tool, observations)
  {
    var prior := Prior(tool, observations);
    if prior != [] {
      UsedExactly(tool, observations, prior[0]);
      var j: nat :| UsedAt(tool, observations, j, prior[0]);
    }
    forall j: nat, v: Json | UsedAt(tool, observations, j, v) ensures prior != [] {
      UsedExactly(tool, observations, v);
    }
  }

  /** The schema requires this key. */
  predicate Requires(schema: Json, key: string) {
    match Lookup(schema, "required")
    case Some(JArr(items)) => JStr(key) in items
    case _ => false
  }

  lemma RequiresExactly(schema: Json, key: string)
    ensures key in RequiredKeys(schema) <==> Requires(schema, key)
  {
    match Lookup(schema, "required")
    case Some(JArr(items)) => TextsInExactly(items, key);
    case _ =>
  }

  /** Where the remaining targets are not enumerated: a tool not used yet, or no diagnostic, keeps its parameters;
      a used one that requires nothing is not offered again; and one that requires a key without listed values, or
      that has more than 256 combinations of them, keeps its parameters. */
  lemma NarrowedOtherwise(same: (Json, Json) -> bool, tool: Tool, observations: seq<Seen>)
    ensures var keys := RequiredKeys(tool.parameters);
      var narrowed := Narrowed(same, tool, observations);
      if !Used(tool.name, observations) || tool.risk != "READ_ONLY" then narrowed == Some(tool.parameters)
      else if forall key :: !Requires(tool.parameters, key) then narrowed == None
      else if (exists key :: Unlisted(tool.parameters, key)) || |Product(Choices(tool.parameters, keys))| > 256
      then narrowed == Some(tool.parameters)
      else Enumerated(tool, observations)
  {
    UsedSome(tool.name, observations);
    CountExactly(Choices(tool.parameters, RequiredKeys(tool.parameters)));
    UnlistedExactly(tool.parameters);
    RequiresNothing(tool.parameters);
  }

  lemma RequiresNothing(schema: Json)
    ensures RequiredKeys(schema) == [] <==> forall key :: !Requires(schema, key)
  {
    var keys := RequiredKeys(schema);
    if keys != [] { RequiresExactly(schema, keys[0]); }
    forall key ensures keys == [] ==> !Requires(schema, key) { RequiresExactly(schema, key); }
  }

  /** The schema requires this key and lists no values for it. */
  predicate Unlisted(schema: Json, key: string) {
    Requires(schema, key) && Choice(schema, key) == []
  }

  lemma UnlistedExactly(schema: Json)
    ensures [] in Choices(schema, RequiredKeys(schema)) <==> exists key :: Unlisted(schema, key)
  {
    var keys := RequiredKeys(schema);
    if [] in Choices(schema, keys) {
      var key := EmptyChoice(schema, keys);
      RequiresExactly(schema, key);
      assert Unlisted(schema, key);
    }
    forall key | Unlisted(schema, key) ensures [] in Choices(schema, keys) {
      RequiresExactly(schema, key);
      ChoiceIsListed(schema, keys, key);
    }
  }

  lemma EmptyChoice(schema: Json, keys: seq<string>) returns (key: string)
    requires [] in Choices(schema, keys)
    ensures key in keys && Choice(schema, key) == []
  {
    var i :| 0 <= i < |keys| && Choices(schema, keys)[i] == [];
    key := keys[i];
  }

  lemma ChoiceIsListed(schema: Json, keys: seq<string>, key: string)
    requires key in keys
    ensures Choice(schema, key) in Choices(schema, keys)
  {
    var i :| 0 <= i < |keys| && keys[i] == key;
    assert Choices(schema, keys)[i] == Choice(schema, key);
  }

  // --- The combinations ---

  predicate Chosen(values: seq<Json>, choices: seq<seq<Json>>) {
    |values| == |choices| && forall i | 0 <= i < |values| :: values[i] in choices[i]
  }

  lemma {:induction false} PrependMembers(value: Json, rest: seq<seq<Json>>)
    ensures forall c :: c in Prepend(value, rest) <==> c != [] && c[0] == value && c[1..] in rest
  {
    if rest != [] {
      PrependMembers(value, rest[1..]);
      forall c ensures c in Prepend(value, rest) <==> c != [] && c[0] == value && c[1..] in rest {
        if c != [] && c[0] == value && c[1..] == rest[0] { assert c == [value] + rest[0]; }
      }
    }
  }

  lemma {:induction false} SpreadMembers(values: seq<Json>, rest: seq<seq<Json>>)
    ensures forall c :: c in Spread(values, rest) <==> c != [] && c[0] in values && c[1..] in rest
  {
    if values != [] {
      PrependMembers(values[0], rest);
      SpreadMembers(values[1..], rest);
      assert forall x :: x in values <==> x == values[0] || x in values[1..];
    }
  }

  lemma {:induction false} ProductMembers(choices: seq<seq<Json>>)
    ensures forall c :: c in Product(choices) <==> Chosen(c, choices)
  {
    if choices != [] {
      SpreadMembers(choices[0], Product(choices[1..]));
      ProductMembers(choices[1..]);
      forall c ensures c in Product(choices) <==> Chosen(c, choices) {
        if c != [] && c[0] in choices[0] && Chosen(c[1..], choices[1..]) {
          forall i | 0 <= i < |c| ensures c[i] in choices[i] { if i > 0 { assert c[i] == c[1..][i - 1]; } }
        }
        if Chosen(c, choices) {
          forall i | 0 <= i < |c[1..]| ensures c[1..][i] in choices[1..][i] { assert c[1..][i] == c[i + 1]; }
        }
      }
    }
  }

  lemma {:induction false} RemainingMembers(same: (Json, Json) -> bool, schema: Json, keys: seq<string>,
                                            combinations: seq<seq<Json>>, prior: seq<Json>)
    requires forall c :: c in combinations ==> |c| == |keys|
    ensures forall c :: c in combinations && Unseen(same, keys, c, prior) ==>
      Branch(schema, keys, c) in Remaining(same, schema, keys, combinations, prior)
    ensures forall b :: b in Remaining(same, schema, keys, combinations, prior) ==>
      exists c :: c in combinations && Unseen(same, keys, c, prior) && b == Branch(schema, keys, c)
  {
    if combinations != [] {
      RemainingMembers(same, schema, keys, combinations[1..], prior);
      assert combinations[0] in combinations;
      forall c | c in combinations[1..] ensures c in combinations {}
    }
  }

  // --- What one restriction accepts ---

  lemma {:induction false} PutAt(fields: seq<Field>, key: string, value: Json)
    requires Has(fields, key)
    ensures Put(fields, key, value) == fields[IndexOf(fields, key) := Field(key, value)]
  {
    if fields[0].key != key { PutAt(fields[1..], key, value); }
  }

  /** What a keyword reads of its siblings. */
  ghost predicate SameSiblings(a: seq<Field>, b: seq<Field>) {
    && Lookup(JObj(a), "prefixItems") == Lookup(JObj(b), "prefixItems")
    && Lookup(JObj(a), "patternProperties") == Lookup(JObj(b), "patternProperties")
    && Lookup(JObj(a), "if") == Lookup(JObj(b), "if")
    && forall k :: Has(Named(a, "properties"), k) == Has(Named(b, "properties"), k)
  }

  lemma LookupAfterPut(fields: seq<Field>, key: string, value: Json, k: string)
    requires k != key
    ensures Lookup(JObj(Put(fields, key, value)), k) == Lookup(JObj(fields), k)
  {
    PutGet(fields, key, value, k);
  }

  lemma KeywordSiblings(scope: Scope, a: seq<Field>, b: seq<Field>, f: Field, v: Json)
    requires f in a && f in b && SameSiblings(a, b)
    ensures Keyword(scope, a, f, v) == Keyword(scope, b, f, v)
  {
    if KindOf(f.key).Child? {
      var sem := scope.sem;
      var p, q := (k: string) => Covered(sem, a, k), (k: string) => Covered(sem, b, k);
      assert Weaker(scope, f.value, scope, f.value);
      ChildMonotone(scope, scope, f.key, f.value, f.value, PrefixLength(a), p, q, v);
      ChildMonotone(scope, scope, f.key, f.value, f.value, PrefixLength(a), q, p, v);
    }
  }

  /** Replacing one keyword's value conjoins the new assertion with the other keywords. */
  lemma ReplaceVerdict(scope: Scope, fields: seq<Field>, i: nat, value: Json, v: Json)
    requires i < |fields| && UniqueKeys(fields)
    requires SameSiblings(fields, fields[i := Field(fields[i].key, value)])
    ensures var g := Field(fields[i].key, value);
      Valid(scope, JObj(fields[i := g]), v)
      == (Keyword(scope, fields[i := g], fields[i := g][i], v) && forall j ::
        0 <= j < |fields| && j != i ==> Keyword(scope, fields, fields[j], v))
  {
    var g := Field(fields[i].key, value);
    var fields' := fields[i := g];
    assert fields'[i] == g && g in fields';
    forall j | 0 <= j < |fields| && j != i
      ensures fields[j] in fields' && Keyword(scope, fields', fields[j], v) == Keyword(scope, fields, fields[j], v)
    {
      assert fields'[j] == fields[j];
      KeywordSiblings(scope, fields, fields', fields[j], v);
    }
    if Keyword(scope, fields', g, v) && forall j :: 0 <= j < |fields| && j != i ==>
      Keyword(scope, fields, fields[j], v) {
      forall f | f in fields' ensures Keyword(scope, fields', f, v) {
        var j :| 0 <= j < |fields'| && fields'[j] == f;
      }
    }
  }

  lemma ByIndex(scope: Scope, fields: seq<Field>, i: nat, v: Json)
    requires i < |fields|
    ensures Valid(scope, JObj(fields), v)
      == (Keyword(scope, fields, fields[i], v) && forall j ::
        0 <= j < |fields| && j != i ==> Keyword(scope, fields, fields[j], v))
  {
    if forall j :: 0 <= j < |fields| ==> Keyword(scope, fields, fields[j], v) {
      forall f | f in fields ensures Keyword(scope, fields, f, v) {
        var j :| 0 <= j < |fields| && fields[j] == f;
      }
    }
  }

  lemma SiblingsAfterPut(fields: seq<Field>, value: Json)
    ensures SameSiblings(fields, Put(fields, "enum", value))
  {
    LookupAfterPut(fields, "enum", value, "prefixItems");
    LookupAfterPut(fields, "enum", value, "patternProperties");
    LookupAfterPut(fields, "enum", value, "if");
    LookupAfterPut(fields, "enum", value, "properties");
  }

  lemma EnumVerdict(scope: Scope, fields: seq<Field>, items: seq<Json>, x: Json)
    requires Field("enum", JArr(items)) in fields
    ensures Keyword(scope, fields, Field("enum", JArr(items)), x) == exists e | e in items :: scope.sem.same(x, e)
  {
    assert KindOf("enum").Plain?;
  }

  /** A property restricted to one of its own enum values. */
  lemma PropertyVerdict(scope: Scope, p: seq<Field>, value: Json, x: Json)
    requires UniqueKeys(p) && Has(p, "enum") && Get(p, "enum").JArr? && value in Get(p, "enum").items
    ensures Valid(scope, JObj(Put(p, "enum", JArr([value]))), x)
      == (Valid(scope, JObj(p), x) && scope.sem.same(x, value))
  {
    var i, one := IndexOf(p, "enum"), JArr([value]);
    PutAt(p, "enum", one);
    SiblingsAfterPut(p, one);
    ReplaceVerdict(scope, p, i, one, x);
    ByIndex(scope, p, i, x);
    var p' := p[i := Field("enum", one)];
    assert p[i] == Field("enum", JArr(Get(p, "enum").items)) && p'[i] == Field("enum", one);
    EnumVerdict(scope, p, Get(p, "enum").items, x);
    EnumVerdict(scope, p', [value], x);
    assert value in [value];
  }

  /** The dictionaries on the way to a property have unique keys, as every Python dict does. */
  predicate DictsTo(schema: Json, key: string) {
    && schema.JObj? && UniqueKeys(schema.fields) && UniqueKeys(Named(schema.fields, "properties"))
    && Property(schema, key).JObj? && UniqueKeys(Property(schema, key).fields)
  }

  lemma NamedVerdict(scope: Scope, named: seq<Field>, j: nat, value: Json, v: Json)
    requires v.JObj? && j < |named| && Has(v.fields, named[j].key)
    ensures ByName(scope, "properties", named[j := Field(named[j].key, value)], v)
      && Valid(scope, named[j].value, Get(v.fields, named[j].key))
      <==> ByName(scope, "properties", named, v) && Valid(scope, value, Get(v.fields, named[j].key))
  {
    var named' := named[j := Field(named[j].key, value)];
    assert forall i :: 0 <= i < |named| && i != j ==> named'[i] == named[i];
    assert named'[j] == Field(named[j].key, value);
  }

  /** The keyword "properties" with one property replaced. */
  lemma PropertiesVerdict(scope: Scope, fields: seq<Field>, key: string, value: Json, v: Json)
    requires UniqueKeys(fields) && Has(fields, "properties") && Get(fields, "properties").JObj?
    requires Has(Named(fields, "properties"), key) && v.JObj? && Has(v.fields, key)
    ensures var named := Named(fields, "properties");
      var fields' := Put(fields, "properties", JObj(Put(named, key, value)));
      Valid(scope, JObj(fields'), v) && Valid(scope, Get(named, key), Get(v.fields, key))
      <==> Valid(scope, JObj(fields), v) && Valid(scope, value, Get(v.fields, key))
  {
    var named := Named(fields, "properties");
    var i, j := IndexOf(fields, "properties"), IndexOf(named, key);
    PutAt(named, key, value);
    var named' := named[j := Field(key, value)];
    PutAt(fields, "properties", JObj(named'));
    RestrictSiblings(fields, named, key, value);
    ReplaceVerdict(scope, fields, i, JObj(named'), v);
    ByIndex(scope, fields, i, v);
    NamedVerdict(scope, named, j, value, v);
    PropertiesKeyword(scope, fields, named, v);
    assert fields[i := Field("properties", JObj(named'))][i] == Field("properties", JObj(named'));
    PropertiesKeyword(scope, fields[i := Field("properties", JObj(named'))], named', v);
  }

  lemma PropertiesKeyword(scope: Scope, fields: seq<Field>, named: seq<Field>, v: Json)
    requires Field("properties", JObj(named)) in fields && v.JObj?
    ensures Keyword(scope, fields, Field("properties", JObj(named)), v) == ByName(scope, "properties", named, v)
  {
    assert KindOf("properties").Names?;
  }

  lemma PropertiesAccepts(scope: Scope, fields: seq<Field>, key: string, v: Json)
    requires Has(fields, "properties") && Get(fields, "properties").JObj?
    requires Has(Named(fields, "properties"), key) && v.JObj? && Has(v.fields, key) && Valid(scope, JObj(fields), v)
    ensures Valid(scope, Get(Named(fields, "properties"), key), Get(v.fields, key))
  {
    var named := Named(fields, "properties");
    assert fields[IndexOf(fields, "properties")] == Field("properties", JObj(named));
    PropertiesKeyword(scope, fields, named, v);
    assert named[IndexOf(named, key)].key == key;
  }

  lemma RestrictVerdict(scope: Scope, schema: Json, key: string, value: Json, v: Json)
    requires DictsTo(schema, key) && value in Choice(schema, key)
    requires v.JObj? && Has(v.fields, key)
    ensures Valid(scope, Restrict(schema, key, value), v)
      == (Valid(scope, schema, v) && scope.sem.same(Get(v.fields, key), value))
  {
    var fields, named, x := schema.fields, Named(schema.fields, "properties"), Get(v.fields, key);
    var p := Property(schema, key).fields;
    var p' := JObj(Put(p, "enum", JArr([value])));
    PropertyVerdict(scope, p, value, x);
    PropertiesVerdict(scope, fields, key, p', v);
    if Valid(scope, schema, v) { PropertiesAccepts(scope, fields, key, v); }
    var r := Restrict(schema, key, value);
    PutGet(fields, "properties", JObj(Put(named, key, p')), "properties");
    PutGet(named, key, p', key);
    if Valid(scope, r, v) { PropertiesAccepts(scope, r.fields, key, v); }
  }

  lemma RestrictSiblings(fields: seq<Field>, named: seq<Field>, key: string, value: Json)
    requires Has(fields, "properties") && named == Named(fields, "properties") && Has(named, key)
    ensures SameSiblings(fields,
      fields[IndexOf(fields, "properties") :=
        Field("properties", JObj(named[IndexOf(named, key) := Field(key, value)]))])
  {
    PutAt(named, key, value);
    var named' := JObj(Put(named, key, value));
    PutAt(fields, "properties", named');
    LookupAfterPut(fields, "properties", named', "prefixItems");
    LookupAfterPut(fields, "properties", named', "patternProperties");
    LookupAfterPut(fields, "properties", named', "if");
    PutGet(fields, "properties", named', "properties");
    forall k ensures Has(named'.fields, k) == Has(named, k) {
      PutGet(named, key, value, k);
    }
  }

  // --- What a branch accepts ---

  lemma RestrictKeeps(schema: Json, key: string, value: Json, k: string)
    requires DictsTo(schema, key) && Choice(schema, key) != []
    ensures Restrict(schema, key, value).JObj?
    ensures RequiredKeys(Restrict(schema, key, value)) == RequiredKeys(schema)
    ensures k != key && DictsTo(schema, k) ==>
      DictsTo(Restrict(schema, key, value), k) && Choice(Restrict(schema, key, value), k) == Choice(schema, k)
  {
    RestrictKeepsRequired(schema, key, value);
    if k != key && DictsTo(schema, k) {
      RestrictKeepsProperty(schema, key, value, k);
      RestrictKeepsKeys(schema, key, value);
    }
  }

  lemma RestrictKeepsRequired(schema: Json, key: string, value: Json)
    requires DictsTo(schema, key) && Choice(schema, key) != []
    ensures Restrict(schema, key, value).JObj?
    ensures RequiredKeys(Restrict(schema, key, value)) == RequiredKeys(schema)
  {
    var named' := JObj(Put(Named(schema.fields, "properties"), key,
      JObj(Put(Property(schema, key).fields, "enum", JArr([value])))));
    LookupAfterPut(schema.fields, "properties", named', "required");
  }

  lemma RestrictKeepsProperty(schema: Json, key: string, value: Json, k: string)
    requires DictsTo(schema, key) && Choice(schema, key) != [] && k != key
    ensures Restrict(schema, key, value).JObj? && Property(Restrict(schema, key, value), k) == Property(schema, k)
  {
    var named := Named(schema.fields, "properties");
    var p' := JObj(Put(Property(schema, key).fields, "enum", JArr([value])));
    PutGet(schema.fields, "properties", JObj(Put(named, key, p')), "properties");
    PutGet(named, key, p', k);
  }

  lemma RestrictKeepsKeys(schema: Json, key: string, value: Json)
    requires DictsTo(schema, key) && Choice(schema, key) != []
    ensures var r := Restrict(schema, key, value);
      r.JObj? && UniqueKeys(r.fields) && UniqueKeys(Named(r.fields, "properties"))
  {
    var fields, named := schema.fields, Named(schema.fields, "properties");
    var p' := JObj(Put(Property(schema, key).fields, "enum", JArr([value])));
    var named' := JObj(Put(named, key, p'));
    PutAt(named, key, p');
    PutAt(fields, "properties", named');
    PutGet(fields, "properties", named', "properties");
  }

  lemma {:induction false} BranchVerdict(scope: Scope, schema: Json, keys: seq<string>, values: seq<Json>, v: Json)
    requires |keys| == |values| && Distinct(keys) && v.JObj? && schema.JObj?
    requires forall i :: 0 <= i < |keys| ==>
      DictsTo(schema, keys[i]) && values[i] in Choice(schema, keys[i]) && Has(v.fields, keys[i])
    ensures Valid(scope, Branch(schema, keys, values), v)
      == (Valid(scope, schema, v) && forall i :: 0 <= i < |keys| ==> scope.sem.same(Get(v.fields, keys[i]), values[i]))
    decreases keys
  {
    if keys != [] {
      var r := Restrict(schema, keys[0], values[0]);
      forall i | 0 <= i < |keys[1..]|
        ensures DictsTo(r, keys[1..][i]) && Choice(r, keys[1..][i]) == Choice(schema, keys[1..][i])
      {
        RestrictKeeps(schema, keys[0], values[0], keys[i + 1]);
      }
      RestrictKeeps(schema, keys[0], values[0], keys[0]);
      RestrictVerdict(scope, schema, keys[0], values[0], v);
      BranchVerdict(scope, r, keys[1..], values[1..], v);
      assert forall i :: 0 < i < |keys| ==> keys[i] == keys[1..][i - 1] && values[i] == values[1..][i - 1];
    }
  }

  lemma {:induction false} BranchKeeps(schema: Json, keys: seq<string>, values: seq<Json>)
    requires |keys| == |values| && Distinct(keys) && schema.JObj?
    requires forall i :: 0 <= i < |keys| ==> DictsTo(schema, keys[i]) && Choice(schema, keys[i]) != []
    ensures Branch(schema, keys, values).JObj? && RequiredKeys(Branch(schema, keys, values)) == RequiredKeys(schema)
    decreases keys
  {
    if keys != [] {
      var r := Restrict(schema, keys[0], values[0]);
      forall i | 0 <= i < |keys[1..]|
        ensures DictsTo(r, keys[1..][i]) && Choice(r, keys[1..][i]) == Choice(schema, keys[1..][i])
      {
        RestrictKeeps(schema, keys[0], values[0], keys[i + 1]);
      }
      RestrictKeeps(schema, keys[0], values[0], keys[0]);
      BranchKeeps(r, keys[1..], values[1..]);
    }
  }

  lemma {:induction false} StringsMembers(items: seq<Json>)
    ensures forall k :: k in TextsIn(items) ==> JStr(k) in items
  {
    if items != [] { StringsMembers(items[1..]); }
  }

  /** An object that a schema accepts has the keys the schema requires. */
  lemma RequiredPresent(scope: Scope, schema: Json, v: Json)
    requires schema.JObj? && v.JObj? && Valid(scope, schema, v)
    ensures forall k :: k in RequiredKeys(schema) ==> Has(v.fields, k)
  {
    if Has(schema.fields, "required") && Get(schema.fields, "required").JArr? {
      var f := schema.fields[IndexOf(schema.fields, "required")];
      assert KindOf("required").Plain?;
      assert Keyword(scope, schema.fields, f, v);
      StringsMembers(f.value.items);
      forall k | k in RequiredKeys(schema) ensures Has(v.fields, k) {
        assert JStr(k) in f.value.items;
      }
    }
  }

  /** A value accepted for a property with an enum equals one of its elements. */
  lemma EnumChosen(scope: Scope, schema: Json, key: string, v: Json) returns (e: Json)
    requires DictsTo(schema, key) && Choice(schema, key) != [] && v.JObj? && Has(v.fields, key)
      && Valid(scope, schema, v)
    ensures e in Choice(schema, key) && scope.sem.same(Get(v.fields, key), e)
  {
    var p := Property(schema, key).fields;
    PropertiesAccepts(scope, schema.fields, key, v);
    var f := p[IndexOf(p, "enum")];
    EnumVerdict(scope, p, f.value.items, Get(v.fields, key));
    assert Keyword(scope, p, f, Get(v.fields, key));
    e :| e in f.value.items && scope.sem.same(Get(v.fields, key), e);
  }

  // --- The theorem ---

  ghost predicate Equivalence(same: (Json, Json) -> bool) {
    && (forall a, b :: same(a, b) ==> same(b, a))
    && (forall a, b, c :: same(a, b) && same(b, c) ==> same(a, c))
  }

  /** The parameters are one dictionary per level, and name each required key once. */
  predicate WellFormed(schema: Json) {
    && schema.JObj? && Distinct(RequiredKeys(schema))
    && forall k | k in RequiredKeys(schema) :: Choice(schema, k) != [] ==> DictsTo(schema, k)
  }

  /** An earlier call and `v` aim at the same target: they agree on every required key. */
  predicate Agrees(same: (Json, Json) -> bool, keys: seq<string>, earlier: Json, v: Json) {
    forall i | 0 <= i < |keys| :: same(GetOrNull(earlier, keys[i]), GetOrNull(v, keys[i]))
  }

  lemma AgreesMatches(same: (Json, Json) -> bool, keys: seq<string>, values: seq<Json>, earlier: Json, v: Json)
    requires Equivalence(same) && |keys| == |values|
    requires forall i :: 0 <= i < |keys| ==> same(GetOrNull(v, keys[i]), values[i])
    ensures Agrees(same, keys, earlier, v) == Matches(same, keys, values, earlier)
  {
  }

  lemma ChosenValues(schema: Json, values: seq<Json>)
    requires WellFormed(schema) && Chosen(values, Choices(schema, RequiredKeys(schema)))
    ensures |values| == |RequiredKeys(schema)|
    ensures forall i :: 0 <= i < |values| ==>
      DictsTo(schema, RequiredKeys(schema)[i]) && values[i] in Choice(schema, RequiredKeys(schema)[i])
  {
    var keys := RequiredKeys(schema);
    forall i | 0 <= i < |keys| ensures DictsTo(schema, keys[i]) && values[i] in Choice(schema, keys[i]) {
      assert values[i] in Choices(schema, keys)[i] && keys[i] in keys;
    }
  }

  lemma OneBranch(scope: Scope, tool: Tool, values: seq<Json>, v: Json)
    requires var keys := RequiredKeys(tool.parameters);
      WellFormed(tool.parameters) && Chosen(values, Choices(tool.parameters, keys)) && v.JObj?
    ensures var keys := RequiredKeys(tool.parameters);
      Valid(scope, Branch(tool.parameters, keys, values), v)
      == (Valid(scope, tool.parameters, v) && forall i ::
        0 <= i < |keys| ==> scope.sem.same(GetOrNull(v, keys[i]), values[i]))
  {
    var schema, keys := tool.parameters, RequiredKeys(tool.parameters);
    ChosenValues(schema, values);
    BranchKeeps(schema, keys, values);
    if Valid(scope, schema, v) { RequiredPresent(scope, schema, v); }
    if Valid(scope, Branch(schema, keys, values), v) { RequiredPresent(scope, Branch(schema, keys, values), v); }
    if forall i :: 0 <= i < |keys| ==> Has(v.fields, keys[i]) {
      BranchVerdict(scope, schema, keys, values, v);
    }
  }

  lemma AnyOfVerdict(scope: Scope, branches: seq<Json>, v: Json)
    ensures Valid(scope, JObj([Field("anyOf", JArr(branches))]), v) == exists b | b in branches :: Valid(scope, b, v)
  {
    var fields := [Field("anyOf", JArr(branches))];
    assert KindOf("anyOf").Branch?;
    assert fields[0] in fields;
    assert Keyword(scope, fields, fields[0], v) == Branches(scope, "anyOf", branches, v);
    assert Branches(scope, "anyOf", branches, v) == exists i :: 0 <= i < |branches| && Valid(scope, branches[i], v);
    if b :| b in branches && Valid(scope, b, v) {
      var i :| 0 <= i < |branches| && branches[i] == b;
    }
  }

  ghost predicate Differs(same: (Json, Json) -> bool, tool: Tool, observations: seq<Seen>, v: Json) {
    forall p :: p in Prior(tool.name, observations) ==> !Agrees(same, RequiredKeys(tool.parameters), p, v)
  }

  /** The branches of the enumerated case. */
  function RemainingBranches(same: (Json, Json) -> bool, tool: Tool, observations: seq<Seen>): seq<Json> {
    var keys := RequiredKeys(tool.parameters);
    ProductMembers(Choices(tool.parameters, keys));
    Remaining(same, tool.parameters, keys, Product(Choices(tool.parameters, keys)), Prior(tool.name, observations))
  }

  lemma NarrowedEnumerated(same: (Json, Json) -> bool, tool: Tool, observations: seq<Seen>)
    requires Enumerated(tool, observations)
    ensures var branches := RemainingBranches(same, tool, observations);
      Narrowed(same, tool, observations) == if branches == [] then None
        else Some(JObj([Field("anyOf", JArr(branches))]))
  {
  }

  /** Every call of the tool with no remediation at or after it differs from `v` on some required key. */
  ghost predicate Fresh(same: (Json, Json) -> bool, tool: Tool, observations: seq<Seen>, v: Json) {
    forall j: nat, p: Json :: UsedAt(tool.name, observations, j, p) ==>
      exists key :: Requires(tool.parameters, key) && !same(GetOrNull(p, key), GetOrNull(v, key))
  }

  lemma FreshExactly(same: (Json, Json) -> bool, tool: Tool, observations: seq<Seen>, v: Json)
    ensures Fresh(same, tool, observations, v) <==> Differs(same, tool, observations, v)
  {
    if Fresh(same, tool, observations, v) {
      forall p | p in Prior(tool.name, observations) ensures !Agrees(same, RequiredKeys(tool.parameters), p, v) {
        UsedExactly(tool.name, observations, p);
        var j: nat :| UsedAt(tool.name, observations, j, p);
        AgreesExactly(same, tool.parameters, p, v);
      }
    }
    if Differs(same, tool, observations, v) {
      forall j: nat, p: Json | UsedAt(tool.name, observations, j, p)
        ensures exists key :: Requires(tool.parameters, key) && !same(GetOrNull(p, key), GetOrNull(v, key))
      {
        UsedExactly(tool.name, observations, p);
        AgreesExactly(same, tool.parameters, p, v);
      }
    }
  }

  lemma AgreesExactly(same: (Json, Json) -> bool, schema: Json, p: Json, v: Json)
    ensures Agrees(same, RequiredKeys(schema), p, v) <==>
      !exists key :: Requires(schema, key) && !same(GetOrNull(p, key), GetOrNull(v, key))
  {
    var keys := RequiredKeys(schema);
    forall key ensures key in keys <==> Requires(schema, key) { RequiresExactly(schema, key); }
    if i :| 0 <= i < |keys| && !same(GetOrNull(p, keys[i]), GetOrNull(v, keys[i])) { assert Requires(schema, keys[i]); }
  }

  /** The targets that remain: with enumerated targets, the narrowed parameters accept an argument
      object exactly when the original parameters do and no call of this tool since the last
      REMEDIATION agrees with it on every required key. */
  lemma NarrowedExactly(scope: Scope, tool: Tool, observations: seq<Seen>, v: Json)
    requires Equivalence(scope.sem.same) && WellFormed(tool.parameters) && Enumerated(tool, observations) && v.JObj?
    ensures var n := Narrowed(scope.sem.same, tool, observations);
      (n.Some? && Valid(scope, n.value, v))
        <==> Valid(scope, tool.parameters, v) && Fresh(scope.sem.same, tool, observations, v)
  {
    NarrowedByPrior(scope, tool, observations, v);
    FreshExactly(scope.sem.same, tool, observations, v);
  }

  lemma NarrowedByPrior(scope: Scope, tool: Tool, observations: seq<Seen>, v: Json)
    requires Equivalence(scope.sem.same) && WellFormed(tool.parameters) && Enumerated(tool, observations) && v.JObj?
    ensures var n := Narrowed(scope.sem.same, tool, observations);
      (n.Some? && Valid(scope, n.value, v))
        <==> Valid(scope, tool.parameters, v) && Differs(scope.sem.same, tool, observations, v)
  {
    var branches := RemainingBranches(scope.sem.same, tool, observations);
    NarrowedEnumerated(scope.sem.same, tool, observations);
    AnyOfVerdict(scope, branches, v);
    if b :| b in branches && Valid(scope, b, v) {
      AdmittedDiffers(scope, tool, observations, b, v);
    }
    if Valid(scope, tool.parameters, v) && Differs(scope.sem.same, tool, observations, v) {
      var b := DifferingIsAdmitted(scope, tool, observations, v);
    }
  }

  lemma AdmittedDiffers(scope: Scope, tool: Tool, observations: seq<Seen>, b: Json, v: Json)
    requires Equivalence(scope.sem.same) && WellFormed(tool.parameters) && v.JObj?
    requires b in RemainingBranches(scope.sem.same, tool, observations) && Valid(scope, b, v)
    ensures Valid(scope, tool.parameters, v) && Differs(scope.sem.same, tool, observations, v)
  {
    var same, keys, prior := scope.sem.same, RequiredKeys(tool.parameters), Prior(tool.name, observations);
    var choices := Choices(tool.parameters, keys);
    ProductMembers(choices);
    RemainingMembers(same, tool.parameters, keys, Product(choices), prior);
    var values :| values in Product(choices) && Unseen(same, keys, values, prior)
      && b == Branch(tool.parameters, keys, values);
    OneBranch(scope, tool, values, v);
    forall p | p in prior ensures !Agrees(same, keys, p, v) { AgreesMatches(same, keys, values, p, v); }
  }

  lemma DifferingIsAdmitted(scope: Scope, tool: Tool, observations: seq<Seen>, v: Json) returns (b: Json)
    requires Equivalence(scope.sem.same) && WellFormed(tool.parameters) && Enumerated(tool, observations) && v.JObj?
    requires Valid(scope, tool.parameters, v) && Differs(scope.sem.same, tool, observations, v)
    ensures Valid(scope, b, v) && b in RemainingBranches(scope.sem.same, tool, observations)
  {
    var same, keys, prior := scope.sem.same, RequiredKeys(tool.parameters), Prior(tool.name, observations);
    var choices := Choices(tool.parameters, keys);
    var values := TargetOf(scope, tool, v);
    OneBranch(scope, tool, values, v);
    forall p | p in prior ensures !Matches(same, keys, values, p) { AgreesMatches(same, keys, values, p, v); }
    ProductMembers(choices);
    RemainingMembers(same, tool.parameters, keys, Product(choices), prior);
    b := Branch(tool.parameters, keys, values);
  }

  lemma TargetOf(scope: Scope, tool: Tool, v: Json) returns (values: seq<Json>)
    requires WellFormed(tool.parameters) && v.JObj? && Valid(scope, tool.parameters, v)
    requires forall c :: c in Choices(tool.parameters, RequiredKeys(tool.parameters)) ==> c != []
    ensures Chosen(values, Choices(tool.parameters, RequiredKeys(tool.parameters)))
    ensures forall i :: 0 <= i < |values| ==> scope.sem.same(GetOrNull(v, RequiredKeys(tool.parameters)[i]), values[i])
  {
    var schema, keys := tool.parameters, RequiredKeys(tool.parameters);
    RequiredPresent(scope, schema, v);
    values := [];
    while |values| < |keys|
      invariant |values| <= |keys|
      invariant forall i :: 0 <= i < |values| ==>
        values[i] in Choice(schema, keys[i]) && scope.sem.same(GetOrNull(v, keys[i]), values[i])
    {
      var e := NextTarget(scope, schema, keys, |values|, v);
      values := values + [e];
    }
  }

  lemma NextTarget(scope: Scope, schema: Json, keys: seq<string>, i: nat, v: Json) returns (e: Json)
    requires WellFormed(schema) && keys == RequiredKeys(schema) && i < |keys|
    requires v.JObj? && Has(v.fields, keys[i]) && Valid(scope, schema, v)
    requires forall c :: c in Choices(schema, keys) ==> c != []
    ensures e in Choice(schema, keys[i]) && scope.sem.same(GetOrNull(v, keys[i]), e)
  {
    assert keys[i] in keys && Choices(schema, keys)[i] in Choices(schema, keys);
    e := EnumChosen(scope, schema, keys[i], v);
  }

  /** Whatever the shape of the parameters, narrowing never admits a call the original rejects. */
  lemma NarrowedNeverWidens(scope: Scope, tool: Tool, observations: seq<Seen>, v: Json)
    requires Equivalence(scope.sem.same) && WellFormed(tool.parameters) && v.JObj?
    ensures var n := Narrowed(scope.sem.same, tool, observations);
      n.Some? && Valid(scope, n.value, v) ==> Valid(scope, tool.parameters, v)
  {
    if Enumerated(tool, observations) { NarrowedExactly(scope, tool, observations, v); }
  }

  // --- The loops that build the branches ---

  method CountChoices(choices: seq<seq<Json>>) returns (count: nat)
    ensures count == Count(choices)
  {
    count := 1;
    var i := 0;
    while i < |choices|
      invariant 0 <= i <= |choices|
      invariant count * Count(choices[i..]) == Count(choices)
    {
      assert choices[i..][1..] == choices[i + 1..];
      assert count * (|choices[i]| * Count(choices[i + 1..])) == (count * |choices[i]|) * Count(choices[i + 1..]);
      count := count * |choices[i]|;
      i := i + 1;
    }
  }

  method NarrowBranch(schema: Json, keys: seq<string>, values: seq<Json>) returns (branch: Json)
    requires |keys| == |values|
    ensures branch == Branch(schema, keys, values)
  {
    branch := schema;
    var i := 0;
    while i < |keys|
      invariant 0 <= i <= |keys|
      invariant Branch(branch, keys[i..], values[i..]) == Branch(schema, keys, values)
    {
      assert keys[i..][1..] == keys[i + 1..] && values[i..][1..] == values[i + 1..];
      branch := Restrict(branch, keys[i], values[i]);
      i := i + 1;
    }
  }

  lemma RemainingUnfolds(same: (Json, Json) -> bool, schema: Json, keys: seq<string>, combinations: seq<seq<Json>>,
                         prior: seq<Json>, done: seq<Json>)
    requires combinations != [] && forall c :: c in combinations ==> |c| == |keys|
    ensures done + Remaining(same, schema, keys, combinations, prior)
      == (if Unseen(same, keys, combinations[0], prior) then done + [Branch(schema, keys, combinations[0])] else done)
        + Remaining(same, schema, keys, combinations[1..], prior)
  {
  }

  method BuildBranches(same: (Json, Json) -> bool, schema: Json, keys: seq<string>, combinations: seq<seq<Json>>,
                       prior: seq<Json>)
    returns (branches: seq<Json>)
    requires forall c :: c in combinations ==> |c| == |keys|
    ensures branches == Remaining(same, schema, keys, combinations, prior)
  {
    branches := [];
    var i := 0;
    ghost var rest := combinations;
    while i < |combinations|
      invariant 0 <= i <= |combinations| && rest == combinations[i..]
      invariant branches + Remaining(same, schema, keys, rest, prior)
        == Remaining(same, schema, keys, combinations, prior)
    {
      RemainingUnfolds(same, schema, keys, rest, prior, branches);
      rest := rest[1..];
      if Unseen(same, keys, combinations[i], prior) {
        var branch := NarrowBranch(schema, keys, combinations[i]);
        branches := branches + [branch];
      }
      i := i + 1;
    }
  }

  method RemainingParameters(same: (Json, Json) -> bool, tool: Tool, observations: seq<Seen>) returns (r: Option<Json>)
    ensures r == Narrowed(same, tool, observations)
  {
    var schema, prior := tool.parameters, Prior(tool.name, observations);
    if prior == [] || tool.risk != "READ_ONLY" { return Some(schema); }
    var keys := RequiredKeys(schema);
    if keys == [] { return None; }
    var choices := Choices(schema, keys);
    if exists c | c in choices :: c == [] { return Some(schema); }
    var count := CountChoices(choices);
    if count > LIMIT { return Some(schema); }
    ProductMembers(choices);
    var branches := BuildBranches(same, schema, keys, Product(choices), prior);
    r := if branches == [] then None else Some(JObj([Field("anyOf", JArr(branches))]));
  }
}
