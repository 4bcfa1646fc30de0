/** What the keywords of a schema mean, each by itself, as the core and validation specifications of JSON Schema
    draft 2020-12 say it. */
module SchemaMeaning {
  import opened JsonValues
  import opened Schema

  /** A schema object asserts all that its keywords assert. */
  lemma OneKeyword(scope: Scope, key: string, value: Json, v: Json)
    ensures Valid(scope, JObj([Field(key, value)]), v)
      == Keyword(scope, [Field(key, value)], [Field(key, value)][0], v)
  {
    var fields := [Field(key, value)];
    assert forall f :: f in fields <==> f == fields[0];
  }

  lemma OneBranch(scope: Scope, key: string, items: seq<Json>, v: Json)
    requires key in BRANCHES
    ensures Valid(scope, JObj([Field(key, JArr(items))]), v) == Branches(scope, key, items, v)
  {
    OneKeyword(scope, key, JArr(items), v);
    assert KindOf(key).Branch?;
  }

  lemma OneChild(scope: Scope, key: string, s: Json, v: Json)
    requires key in CHILDREN
    ensures var fields := [Field(key, s)];
      Valid(scope, JObj(fields), v)
      == Below(scope, key, s, PrefixLength(fields), (k: string) => Covered(scope.sem, fields, k), v)
  {
    OneKeyword(scope, key, s, v);
    assert KindOf(key).Child?;
  }

  lemma OneOfNames(scope: Scope, key: string, named: seq<Field>, v: Json)
    requires key in NAMED && v.JObj?
    ensures Valid(scope, JObj([Field(key, JObj(named))]), v) == ByName(scope, key, named, v)
  {
    OneKeyword(scope, key, JObj(named), v);
    assert KindOf(key).Names?;
  }

  /** Core, section 10.2.1. */
  lemma AllMeans(scope: Scope, items: seq<Json>, v: Json)
    ensures Valid(scope, JObj([Field("allOf", JArr(items))]), v) <==> forall s :: s in items ==> Valid(scope, s, v)
  {
    OneBranch(scope, "allOf", items, v);
    if forall s :: s in items ==> Valid(scope, s, v) {
      forall i | 0 <= i < |items| ensures Valid(scope, items[i], v) { assert items[i] in items; }
    }
  }

  lemma AnyMeans(scope: Scope, items: seq<Json>, v: Json)
    ensures Valid(scope, JObj([Field("anyOf", JArr(items))]), v) <==> exists s :: s in items && Valid(scope, s, v)
  {
    OneBranch(scope, "anyOf", items, v);
    if i :| 0 <= i < |items| && Valid(scope, items[i], v) { assert items[i] in items; }
  }

  /** The one schema of the list that accepts the value. */
  predicate Sole(scope: Scope, items: seq<Json>, v: Json, i: nat) {
    i < |items| && forall j | 0 <= j < |items| :: Valid(scope, items[j], v) <==> j == i
  }

  lemma OneMeans(scope: Scope, items: seq<Json>, v: Json)
    ensures Valid(scope, JObj([Field("oneOf", JArr(items))]), v) <==> exists i: nat :: Sole(scope, items, v, i)
  {
    OneBranch(scope, "oneOf", items, v);
    if Branches(scope, "oneOf", items, v) {
      var i := SoleBranch(scope, items, v);
    } else {
      forall i: nat ensures !Sole(scope, items, v, i) { if Sole(scope, items, v, i) { SoleIsOne(scope, items, v, i); } }
    }
  }

  lemma SoleBranch(scope: Scope, items: seq<Json>, v: Json) returns (i: nat)
    requires Branches(scope, "oneOf", items, v)
    ensures Sole(scope, items, v, i)
  {
    i :| i < |items| && Valid(scope, items[i], v)
      && forall j | 0 <= j < |items| :: Valid(scope, items[j], v) ==> j == i;
  }

  lemma SoleIsOne(scope: Scope, items: seq<Json>, v: Json, i: nat)
    requires Sole(scope, items, v, i)
    ensures Branches(scope, "oneOf", items, v)
  {
    assert Valid(scope, items[i], v);
  }

  lemma NotMeans(scope: Scope, s: Json, v: Json)
    ensures Valid(scope, JObj([Field("not", s)]), v) <==> !Valid(scope, s, v)
  {
    OneChild(scope, "not", s, v);
  }

  /** Core, section 10.2.2. */
  lemma IfMeans(scope: Scope, s: Json, t: Json, e: Json, v: Json)
    ensures Valid(scope, JObj([Field("if", s), Field("then", t), Field("else", e)]), v)
      <==> if Valid(scope, s, v) then Valid(scope, t, v) else Valid(scope, e, v)
  {
    var fields := [Field("if", s), Field("then", t), Field("else", e)];
    assert KindOf("if").Conditional? && KindOf("then").Conditional? && KindOf("else").Conditional?;
    assert fields[0] in fields && fields[1] in fields && fields[2] in fields && IndexOf(fields, "if") == 0;
  }

  /** Core, section 10.3.1: the items after the prefix, some item, and the prefix place by place. */
  lemma ItemsMean(scope: Scope, s: Json, items: seq<Json>)
    ensures Valid(scope, JObj([Field("items", s)]), JArr(items)) <==> forall x :: x in items ==> Valid(scope, s, x)
    ensures Valid(scope, JObj([Field("contains", s)]), JArr(items)) <==> exists x :: x in items && Valid(scope, s, x)
  {
    OneChild(scope, "items", s, JArr(items));
    OneChild(scope, "contains", s, JArr(items));
    if forall x :: x in items ==> Valid(scope, s, x) {
      forall i | 0 <= i < |items| ensures Valid(scope, s, items[i]) { assert items[i] in items; }
    }
    if i :| 0 <= i < |items| && Valid(scope, s, items[i]) { assert items[i] in items; }
  }

  lemma PrefixMeans(scope: Scope, prefix: seq<Json>, rest: Json, items: seq<Json>)
    ensures Valid(scope, JObj([Field("prefixItems", JArr(prefix)), Field("items", rest)]), JArr(items)) <==>
      forall i | 0 <= i < |items| :: Valid(scope, if i < |prefix| then prefix[i] else rest, items[i])
  {
    var fields := [Field("prefixItems", JArr(prefix)), Field("items", rest)];
    var v := JArr(items);
    assert KindOf("prefixItems").Branch? && KindOf("items").Child?;
    assert fields[0] in fields && fields[1] in fields && PrefixLength(fields) == |prefix|;
    assert Valid(scope, JObj(fields), v)
      <==> Keyword(scope, fields, fields[0], v) && Keyword(scope, fields, fields[1], v);
    assert Keyword(scope, fields, fields[0], v) <==>
      forall i | 0 <= i < |prefix| && i < |items| :: Valid(scope, prefix[i], items[i]);
    assert Keyword(scope, fields, fields[1], v) <==> forall i | |prefix| <= i < |items| :: Valid(scope, rest, items[i]);
  }

  /** Core, section 10.3.2. */
  lemma PropertiesMean(scope: Scope, named: seq<Field>, members: seq<Field>)
    ensures Valid(scope, JObj([Field("properties", JObj(named))]), JObj(members))
      <==> forall p :: p in named && Has(members, p.key) ==> Valid(scope, p.value, Get(members, p.key))
  {
    OneOfNames(scope, "properties", named, JObj(members));
    if forall p :: p in named && Has(members, p.key) ==> Valid(scope, p.value, Get(members, p.key)) {
      forall i | 0 <= i < |named| && Has(members, named[i].key)
        ensures Valid(scope, named[i].value, Get(members, named[i].key))
      {
        assert named[i] in named;
      }
    }
  }

  lemma DependentMeans(scope: Scope, named: seq<Field>, members: seq<Field>)
    ensures Valid(scope, JObj([Field("dependentSchemas", JObj(named))]), JObj(members))
      <==> forall p :: p in named && Has(members, p.key) ==> Valid(scope, p.value, JObj(members))
  {
    OneOfNames(scope, "dependentSchemas", named, JObj(members));
    if forall p :: p in named && Has(members, p.key) ==> Valid(scope, p.value, JObj(members)) {
      forall i | 0 <= i < |named| && Has(members, named[i].key) ensures Valid(scope, named[i].value, JObj(members)) {
        assert named[i] in named;
      }
    }
  }

  lemma PatternsMean(scope: Scope, named: seq<Field>, members: seq<Field>)
    ensures Valid(scope, JObj([Field("patternProperties", JObj(named))]), JObj(members)) <==>
      forall p, m :: p in named && m in members && scope.sem.matches(p.key, m.key) ==> Valid(scope, p.value, m.value)
  {
    OneOfNames(scope, "patternProperties", named, JObj(members));
    if forall p, m :: p in named && m in members && scope.sem.matches(p.key, m.key) ==> Valid(scope, p.value, m.value) {
      forall i, j | 0 <= i < |named| && 0 <= j < |members| && scope.sem.matches(named[i].key, members[j].key)
        ensures Valid(scope, named[i].value, members[j].value)
      {
        assert named[i] in named && members[j] in members;
      }
    }
  }

  lemma NamesMean(scope: Scope, s: Json, members: seq<Field>)
    ensures Valid(scope, JObj([Field("propertyNames", s)]), JObj(members))
      <==> forall m :: m in members ==> Valid(scope, s, JStr(m.key))
  {
    OneChild(scope, "propertyNames", s, JObj(members));
    if forall m :: m in members ==> Valid(scope, s, JStr(m.key)) {
      forall i | 0 <= i < |members| ensures Valid(scope, s, JStr(members[i].key)) { assert members[i] in members; }
    }
  }

  /** What no sibling names and no sibling's pattern matches is additional. */
  lemma AdditionalMeans(scope: Scope, named: seq<Field>, patterns: seq<Field>, s: Json, members: seq<Field>)
    ensures var fields := [Field("additionalProperties", s), Field("properties", JObj(named)),
                           Field("patternProperties", JObj(patterns))];
      Keyword(scope, fields, fields[0], JObj(members)) <==>
        forall m :: m in members ==>
          || Has(named, m.key) || (exists p :: p in patterns && scope.sem.matches(p.key, m.key))
          || Valid(scope, s, m.value)
  {
    var fields := [Field("additionalProperties", s), Field("properties", JObj(named)),
                   Field("patternProperties", JObj(patterns))];
    assert KindOf("additionalProperties").Child?;
    assert fields[1..][1..] == fields[2..] && IndexOf(fields[2..], "patternProperties") == 0;
    assert IndexOf(fields, "properties") == 1 && IndexOf(fields, "patternProperties") == 2;
    forall k
      ensures Covered(scope.sem, fields, k)
        <==> Has(named, k) || exists p :: p in patterns && scope.sem.matches(p.key, k)
    {
      CoveredExactly(scope.sem, fields, named, patterns, k);
    }
  }

  lemma CoveredExactly(sem: Semantics, fields: seq<Field>, named: seq<Field>, patterns: seq<Field>, k: string)
    requires Lookup(JObj(fields), "properties") == Some(JObj(named))
    requires Lookup(JObj(fields), "patternProperties") == Some(JObj(patterns))
    ensures Covered(sem, fields, k) <==> Has(named, k) || exists p :: p in patterns && sem.matches(p.key, k)
  {
    if p :| p in patterns && sem.matches(p.key, k) {
      var i :| 0 <= i < |patterns| && patterns[i] == p;
      assert sem.matches(patterns[i].key, k);
    }
  }

  /** Every other keyword asserts something about the value by itself. */
  lemma OneLimit(scope: Scope, key: string, value: Json, v: Json)
    requires KindOf(key).Plain?
    ensures Valid(scope, JObj([Field(key, value)]), v) == Simple(scope.sem, Field(key, value), v)
  {
    OneKeyword(scope, key, value, v);
  }

  /** Validation, section 6.1: a type or one of several, one of the listed values, and the constant. */
  lemma ValuesMean(sem: Semantics, name: string, names: seq<Json>, c: Json, items: seq<Json>, v: Json)
    ensures Simple(sem, Field("type", JStr(name)), v) <==> name == TypeName(v) || (name == "number" && v.JInt?)
    ensures Simple(sem, Field("type", JArr(names)), v)
      <==> JStr(TypeName(v)) in names || (v.JInt? && JStr("number") in names)
    ensures Simple(sem, Field("enum", JArr(items)), v) <==> exists e :: e in items && sem.same(v, e)
    ensures Simple(sem, Field("const", c), v) <==> sem.same(v, c)
  {
  }

  /** Validation, sections 6.2 and 6.3. */
  lemma ScalarLimitsMean(sem: Semantics, low: int, high: int, pattern: string, n: int, s: string)
    ensures Simple(sem, Field("minimum", JInt(low)), JInt(n)) <==> low <= n
    ensures Simple(sem, Field("maximum", JInt(high)), JInt(n)) <==> n <= high
    ensures Simple(sem, Field("minLength", JInt(low)), JStr(s)) <==> low <= |s|
    ensures Simple(sem, Field("maxLength", JInt(high)), JStr(s)) <==> |s| <= high
    ensures Simple(sem, Field("pattern", JStr(pattern)), JStr(s)) <==> sem.matches(pattern, s)
  {
  }

  /** Validation, sections 6.4 and 6.5. */
  lemma SizeLimitsMean(sem: Semantics, low: int, high: int, names: seq<Json>, items: seq<Json>, members: seq<Field>)
    ensures Simple(sem, Field("minItems", JInt(low)), JArr(items)) <==> low <= |items|
    ensures Simple(sem, Field("maxItems", JInt(high)), JArr(items)) <==> |items| <= high
    ensures Simple(sem, Field("minProperties", JInt(low)), JObj(members)) <==> low <= |members|
    ensures Simple(sem, Field("maxProperties", JInt(high)), JObj(members)) <==> |members| <= high
    ensures Simple(sem, Field("required", JArr(names)), JObj(members))
      <==> forall key :: JStr(key) in names ==> Has(members, key)
  {
    forall r | r in names && r.JStr? ensures JStr(r.s) in names {}
  }

  /** A document is validated with its own definitions. */
  lemma DocumentMeans(sem: Semantics, named: seq<Field>, name: string, v: Json)
    requires sem.depth > 0 && Has(named, name)
    ensures var document := JObj([Field("$ref", JStr("#/$defs/" + name)), Field("$defs", JObj(named))]);
      Accepts(sem, document, v) <==> Valid(Scope(sem, named, sem.depth - 1), Get(named, name), v)
  {
    var fields, scope := [Field("$ref", JStr("#/$defs/" + name)), Field("$defs", JObj(named))],
      Scope(sem, named, sem.depth);
    var target := "#/$defs/" + name;
    assert Definitions(JObj(fields)) == named by { assert IndexOf(fields, "$defs") == 1; }
    assert KindOf("$ref").Reference? && KindOf("$defs").Names? && REFERENCE <= target && target[|REFERENCE|..] == name;
    assert fields[0] in fields && fields[1] in fields && Keyword(scope, fields, fields[1], v);
    assert Valid(scope, JObj(fields), v) <==> Keyword(scope, fields, fields[0], v);
    assert scope.(depth := scope.depth - 1) == Scope(sem, named, sem.depth - 1);
  }

  /** Core, section 8.2.3: a reference asserts what the definition it names asserts. */
  lemma ReferenceMeans(scope: Scope, name: string, v: Json)
    requires scope.depth > 0 && Has(scope.defs, name)
    ensures Valid(scope, JObj([Field("$ref", JStr("#/$defs/" + name))]), v)
      <==> Valid(scope.(depth := scope.depth - 1), Get(scope.defs, name), v)
  {
    var target := "#/$defs/" + name;
    OneKeyword(scope, "$ref", JStr(target), v);
    assert KindOf("$ref").Reference? && REFERENCE <= target && target[|REFERENCE|..] == name;
  }
}
