/** What a JSON Schema accepts (draft 2020-12), and the annotation-removing pass of context.py. */
module Schema {
  import opened JsonValues

  /** What the model leaves open: when two instances are equal, what a regular expression matches,
      what a keyword outside the fragment below asserts about an instance by itself, and how many
      references may be followed one after another. */
  datatype Semantics = Semantics(
    same: (Json, Json) -> bool,
    matches: (string, string) -> bool,
    extra: (string, Json, Json) -> bool,
    depth: nat)

  const ANNOTATIONS: set<string> :=
    {"title", "description", "default", "examples", "$comment", "deprecated", "readOnly", "writeOnly"}
  const NAMED: set<string> :=
    {"properties", "patternProperties", "$defs", "definitions", "dependentSchemas"}
  const CONDITIONALS: set<string> := {"if", "then", "else"}
  const CHILDREN: set<string> :=
    {"items", "additionalItems", "additionalProperties", "unevaluatedItems", "unevaluatedProperties",
     "contains", "propertyNames", "not"}
  const BRANCHES: set<string> := {"allOf", "anyOf", "oneOf", "prefixItems"}

  /** How a keyword uses its value, decided in this order. */
  datatype Kind = Annotation | Names | Conditional | Child | Branch | Reference | Plain

  function KindOf(key: string): Kind {
    if key in ANNOTATIONS then Annotation
    else if key in NAMED then Names
    else if key in CONDITIONALS then Conditional
    else if key in CHILDREN then Child
    else if key in BRANCHES then Branch
    else if key == "$ref" then Reference
    else Plain
  }

  function TypeName(v: Json): string {
    match v
    case JNull => "null"
    case JBool(_) => "boolean"
    case JInt(_) => "integer"
    case JStr(_) => "string"
    case JArr(_) => "array"
    case JObj(_) => "object"
  }

  predicate HasType(name: Json, v: Json) {
    name == JStr(TypeName(v)) || (name == JStr("number") && v.JInt?)
  }

  /** The definitions that references name, and how many of them may still be followed. */
  datatype Scope = Scope(sem: Semantics, defs: seq<Field>, depth: nat)

  /** The schemas listed under keyword `key`, which names them (an object) or numbers them. */
  function Named(fields: seq<Field>, key: string): seq<Field> {
    match Lookup(JObj(fields), key)
    case Some(JObj(named)) => named
    case _ => []
  }

  function PrefixLength(fields: seq<Field>): nat {
    match Lookup(JObj(fields), "prefixItems")
    case Some(JArr(items)) => |items|
    case _ => 0
  }

  predicate SomeMatch(sem: Semantics, patterns: seq<Field>, key: string) {
    exists i | 0 <= i < |patterns| :: sem.matches(patterns[i].key, key)
  }

  /** Whether sibling keywords already speak for property `key` (core, section 10.3.2.3). */
  predicate Covered(sem: Semantics, fields: seq<Field>, key: string) {
    Has(Named(fields, "properties"), key) || SomeMatch(sem, Named(fields, "patternProperties"), key)
  }

  const REFERENCE := "#/$defs/"

  predicate Valid(scope: Scope, schema: Json, v: Json)
    decreases scope.depth, schema, 1
  {
    match schema
    case JBool(b) => b
    case JObj(fields) => forall f | f in fields :: Keyword(scope, fields, f, v)
    case _ => false
  }

  /** The assertion that keyword `f` of the schema object `fields` makes about `v`. */
  predicate Keyword(scope: Scope, fields: seq<Field>, f: Field, v: Json)
    requires f in fields
    decreases scope.depth, fields, 1
  {
    match KindOf(f.key)
    case Annotation => true
    case Names => f.value.JObj? && v.JObj? ==> ByName(scope, f.key, f.value.fields, v)
    case Conditional =>
      f.key != "if" && Has(fields, "if") && Valid(scope, fields[IndexOf(fields, "if")].value, v) == (f.key == "then")
      ==> Valid(scope, f.value, v)
    case Child =>
      var sem := scope.sem;
      Below(scope, f.key, f.value, PrefixLength(fields), (k: string) => Covered(sem, fields, k), v)
    case Branch => f.value.JArr? ==> Branches(scope, f.key, f.value.items, v)
    case Reference =>
      f.value.JStr? && REFERENCE <= f.value.s && scope.depth > 0
      && var name := f.value.s[|REFERENCE|..];
         Has(scope.defs, name) && Valid(scope.(depth := scope.depth - 1), Get(scope.defs, name), v)
    case Plain => Simple(scope.sem, f, v)
  }

  predicate ByName(scope: Scope, key: string, named: seq<Field>, v: Json)
    requires v.JObj?
    decreases scope.depth, named
  {
    if key == "properties" then
      forall i | 0 <= i < |named| :: Has(v.fields, named[i].key)
        ==> Valid(scope, named[i].value, Get(v.fields, named[i].key))
    else if key == "patternProperties" then
      forall i, j | 0 <= i < |named| && 0 <= j < |v.fields| ::
        scope.sem.matches(named[i].key, v.fields[j].key) ==> Valid(scope, named[i].value, v.fields[j].value)
    else if key == "dependentSchemas" then
      forall i | 0 <= i < |named| :: Has(v.fields, named[i].key) ==> Valid(scope, named[i].value, v)
    else true
  }

  /** A keyword with one subschema; `prefix` and `covered` are what its siblings speak for. */
  predicate Below(scope: Scope, key: string, schema: Json, prefix: nat, covered: string -> bool, v: Json)
    decreases scope.depth, schema, 2
  {
    if key == "items" then v.JArr? ==> forall i | prefix <= i < |v.items| :: Valid(scope, schema, v.items[i])
    else if key == "contains" then v.JArr? ==> exists i | 0 <= i < |v.items| :: Valid(scope, schema, v.items[i])
    else if key == "additionalProperties" then
      v.JObj? ==> forall i | 0 <= i < |v.fields| :: covered(v.fields[i].key) || Valid(scope, schema, v.fields[i].value)
    else if key == "propertyNames" then
      v.JObj? ==> forall i | 0 <= i < |v.fields| :: Valid(scope, schema, JStr(v.fields[i].key))
    else if key == "not" then !Valid(scope, schema, v)
    else true
  }

  predicate Branches(scope: Scope, key: string, items: seq<Json>, v: Json)
    decreases scope.depth, items
  {
    if key == "allOf" then forall i | 0 <= i < |items| :: Valid(scope, items[i], v)
    else if key == "anyOf" then exists i | 0 <= i < |items| :: Valid(scope, items[i], v)
    else if key == "oneOf" then
      exists i | 0 <= i < |items| :: Valid(scope, items[i], v)
        && forall j | 0 <= j < |items| :: Valid(scope, items[j], v) ==> j == i
    else v.JArr? ==> forall i | 0 <= i < |items| && i < |v.items| :: Valid(scope, items[i], v.items[i])
  }

  /** Keywords that assert something about the instance alone; an annotation asserts nothing. */
  predicate Simple(sem: Semantics, f: Field, v: Json) {
    var p := f.value;
    if f.key == "type" then (if p.JArr? then exists t | t in p.items :: HasType(t, v) else HasType(p, v))
    else if f.key == "enum" then p.JArr? && exists e | e in p.items :: sem.same(v, e)
    else if f.key == "const" then sem.same(v, p)
    else if f.key == "required" then v.JObj? && p.JArr? ==> forall r | r in p.items :: r.JStr? ==> Has(v.fields, r.s)
    else if f.key == "minLength" then v.JStr? && p.JInt? ==> p.n <= |v.s|
    else if f.key == "maxLength" then v.JStr? && p.JInt? ==> |v.s| <= p.n
    else if f.key == "pattern" then v.JStr? && p.JStr? ==> sem.matches(p.s, v.s)
    else if f.key == "minimum" then v.JInt? && p.JInt? ==> p.n <= v.n
    else if f.key == "maximum" then v.JInt? && p.JInt? ==> v.n <= p.n
    else if f.key == "minItems" then v.JArr? && p.JInt? ==> p.n <= |v.items|
    else if f.key == "maxItems" then v.JArr? && p.JInt? ==> |v.items| <= p.n
    else if f.key == "minProperties" then v.JObj? && p.JInt? ==> p.n <= |v.fields|
    else if f.key == "maxProperties" then v.JObj? && p.JInt? ==> |v.fields| <= p.n
    else sem.extra(f.key, p, v)
  }

  /** Validation by a schema document: references name its own "$defs". */
  predicate Accepts(sem: Semantics, schema: Json, v: Json) {
    Valid(Scope(sem, Definitions(schema), sem.depth), schema, v)
  }

  function Definitions(schema: Json): seq<Field> {
    if schema.JObj? then Named(schema.fields, "$defs") else []
  }

  // --- When one schema is weaker than another ---

  /** Everything `s` accepts in `scope`, `t` accepts in `scope'`. */
  ghost predicate Weaker(scope: Scope, s: Json, scope': Scope, t: Json) {
    forall w :: Valid(scope, s, w) ==> Valid(scope', t, w)
  }

  ghost predicate AllWeaker(scope: Scope, a: seq<Json>, scope': Scope, b: seq<Json>) {
    |a| == |b| && forall i :: 0 <= i < |a| ==> Weaker(scope, a[i], scope', b[i])
  }

  ghost predicate NamesWeaker(scope: Scope, a: seq<Field>, scope': Scope, b: seq<Field>) {
    |a| == |b| && forall i :: 0 <= i < |a| ==> a[i].key == b[i].key && Weaker(scope, a[i].value, scope', b[i].value)
  }

  lemma NamesMonotone(scope: Scope, scope': Scope, key: string, a: seq<Field>, b: seq<Field>, v: Json)
    requires v.JObj? && scope.sem == scope'.sem && NamesWeaker(scope, a, scope', b)
    ensures ByName(scope, key, a, v) ==> ByName(scope', key, b, v)
  {
  }

  lemma ChildMonotone(scope: Scope, scope': Scope, key: string, s: Json, t: Json, prefix: nat,
                      covered: string -> bool, covered': string -> bool, v: Json)
    requires if key == "not" then Weaker(scope', t, scope, s) else Weaker(scope, s, scope', t)
    requires forall k :: covered(k) == covered'(k)
    ensures Below(scope, key, s, prefix, covered, v) ==> Below(scope', key, t, prefix, covered', v)
  {
  }

  lemma BranchesMonotone(scope: Scope, scope': Scope, key: string, a: seq<Json>, b: seq<Json>, v: Json)
    requires AllWeaker(scope, a, scope', b)
    requires key == "oneOf" ==> AllWeaker(scope', b, scope, a)
    requires Branches(scope, key, a, v)
    ensures Branches(scope', key, b, v)
  {
    if key == "oneOf" {
      var i :| 0 <= i < |a| && Valid(scope, a[i], v) && forall j | 0 <= j < |a| :: Valid(scope, a[j], v) ==> j == i;
      assert Weaker(scope, a[i], scope', b[i]);
      forall j | 0 <= j < |b| && Valid(scope', b[j], v) ensures j == i {
        assert Weaker(scope', b[j], scope, a[j]);
      }
    } else if key == "anyOf" {
      var i :| 0 <= i < |a| && Valid(scope, a[i], v);
      assert Weaker(scope, a[i], scope', b[i]);
    } else if key == "allOf" {
      forall i | 0 <= i < |b| ensures Valid(scope', b[i], v) { assert Weaker(scope, a[i], scope', b[i]); }
    } else if v.JArr? {
      forall i | 0 <= i < |b| && i < |v.items| ensures Valid(scope', b[i], v.items[i]) {
        assert Weaker(scope, a[i], scope', b[i]);
      }
    }
  }

  lemma BranchesEqual(scope: Scope, scope': Scope, key: string, a: seq<Json>, b: seq<Json>, v: Json)
    requires AllWeaker(scope, a, scope', b) && AllWeaker(scope', b, scope, a)
    ensures Branches(scope, key, a, v) == Branches(scope', key, b, v)
  {
    if Branches(scope, key, a, v) { BranchesMonotone(scope, scope', key, a, b, v); }
    if Branches(scope', key, b, v) { BranchesMonotone(scope', scope, key, b, a, v); }
  }

  // --- compact_schema ---

  function CompactSchema(schema: Json): Json
    decreases schema, 1
  {
    match schema
    case JObj(fields) => JObj(CompactFields(fields))
    case _ => schema
  }

  function CompactFields(fields: seq<Field>): seq<Field>
    decreases fields, 0
  {
    if fields == [] then []
    else (if KindOf(fields[0].key).Annotation? then [] else [CompactField(fields[0])]) + CompactFields(fields[1..])
  }

  function CompactField(f: Field): Field
    decreases f, 0
  {
    match KindOf(f.key)
    case Names => if f.value.JObj? then Field(f.key, JObj(CompactNames(f.value.fields))) else f
    case Conditional => Field(f.key, CompactSchema(f.value))
    case Child => Field(f.key, CompactSchema(f.value))
    case Branch => if f.value.JArr? then Field(f.key, JArr(CompactItems(f.value.items))) else f
    case _ => f
  }

  function CompactNames(fields: seq<Field>): seq<Field>
    decreases fields, 0
  {
    if fields == [] then [] else [Field(fields[0].key, CompactSchema(fields[0].value))] + CompactNames(fields[1..])
  }

  function CompactItems(items: seq<Json>): seq<Json>
    decreases items, 0
  {
    if items == [] then [] else [CompactSchema(items[0])] + CompactItems(items[1..])
  }

  lemma {:induction false} CompactNamesAt(fields: seq<Field>)
    ensures |CompactNames(fields)| == |fields|
    ensures forall i :: 0 <= i < |fields| ==>
      CompactNames(fields)[i] == Field(fields[i].key, CompactSchema(fields[i].value))
  {
    if fields != [] { CompactNamesAt(fields[1..]); }
  }

  lemma {:induction false} CompactItemsAt(items: seq<Json>)
    ensures |CompactItems(items)| == |items|
    ensures forall i :: 0 <= i < |items| ==> CompactItems(items)[i] == CompactSchema(items[i])
  {
    if items != [] { CompactItemsAt(items[1..]); }
  }

  lemma {:induction false} CompactNamesGet(fields: seq<Field>, key: string)
    ensures Has(CompactNames(fields), key) == Has(fields, key)
    ensures Has(fields, key) ==> Get(CompactNames(fields), key) == CompactSchema(Get(fields, key))
  {
    if fields != [] {
      CompactNamesGet(fields[1..], key);
      assert fields == [fields[0]] + fields[1..];
      PrependGet(fields[0], fields[1..], key);
      PrependGet(Field(fields[0].key, CompactSchema(fields[0].value)), CompactNames(fields[1..]), key);
    }
  }

  /** A property name is never lost, even one that is also an annotation keyword; a schema keyword
      other than an annotation is found again in compacted form. */
  lemma {:induction false} CompactFieldsGet(fields: seq<Field>, key: string)
    ensures Has(CompactFields(fields), key) == (!KindOf(key).Annotation? && Has(fields, key))
    ensures !KindOf(key).Annotation? && Has(fields, key) ==>
      Get(CompactFields(fields), key) == CompactField(Field(key, Get(fields, key))).value
  {
    if fields != [] {
      CompactFieldsGet(fields[1..], key);
      assert fields == [fields[0]] + fields[1..];
      PrependGet(fields[0], fields[1..], key);
      PrependGet(CompactField(fields[0]), CompactFields(fields[1..]), key);
      CompactFieldKey(fields[0]);
      CompactFieldsUnfold(fields);
    }
  }

  lemma CompactFieldsUnfold(fields: seq<Field>)
    requires fields != []
    ensures CompactFields(fields)
      == if KindOf(fields[0].key).Annotation? then CompactFields(fields[1..])
        else [CompactField(fields[0])] + CompactFields(fields[1..])
  {
  }

  lemma CompactFieldKey(f: Field)
    ensures CompactField(f).key == f.key
  {
  }

  lemma {:induction false} CompactFieldsIn(fields: seq<Field>)
    ensures forall f :: f in fields && !KindOf(f.key).Annotation? ==> CompactField(f) in CompactFields(fields)
    ensures forall g :: g in CompactFields(fields) ==>
      exists f :: f in fields && !KindOf(f.key).Annotation? && g == CompactField(f)
  {
    if fields != [] {
      CompactFieldsIn(fields[1..]);
    }
  }

  /** Which keywords only annotate, and which name, hold or list schemas. */
  lemma KindsExactly(key: string)
    ensures KindOf(key).Annotation? <==>
      key in {"title", "description", "default", "examples", "$comment", "deprecated", "readOnly", "writeOnly"}
    ensures KindOf(key).Names? <==>
      key in {"properties", "patternProperties", "$defs", "definitions", "dependentSchemas"}
    ensures KindOf(key).Child? || KindOf(key).Conditional? <==>
      key in {"items", "additionalItems", "additionalProperties", "unevaluatedItems", "unevaluatedProperties",
        "contains",
              "propertyNames", "not", "if", "then", "else"}
    ensures KindOf(key).Branch? <==> key in {"allOf", "anyOf", "oneOf", "prefixItems"}
  {
  }

  /** What one field of a schema becomes: annotations go; under the keywords that name, hold or list schemas
      these are compacted in place, their names kept; everything else is untouched. */
  predicate Compacts(f: Field, g: Field) {
    match KindOf(f.key)
    case Annotation => false
    case Names =>
      if f.value.JObj? then
        && g.key == f.key && g.value.JObj? && |g.value.fields| == |f.value.fields|
        && forall i | 0 <= i < |f.value.fields| ::
             g.value.fields[i] == Field(f.value.fields[i].key, CompactSchema(f.value.fields[i].value))
      else g == f
    case Branch =>
      if f.value.JArr? then
        && g.key == f.key && g.value.JArr? && |g.value.items| == |f.value.items|
        && forall i | 0 <= i < |f.value.items| :: g.value.items[i] == CompactSchema(f.value.items[i])
      else g == f
    case Child => g == Field(f.key, CompactSchema(f.value))
    case Conditional => g == Field(f.key, CompactSchema(f.value))
    case _ => g == f
  }

  lemma FieldCompacts(f: Field, g: Field)
    ensures !KindOf(f.key).Annotation? && g == CompactField(f) <==> Compacts(f, g)
  {
    if KindOf(f.key).Names? { NamesCompact(f, g); }
    else if KindOf(f.key).Branch? { BranchCompacts(f, g); }
  }

  lemma NamesCompact(f: Field, g: Field)
    requires KindOf(f.key).Names?
    ensures g == CompactField(f) <==> Compacts(f, g)
  {
    if f.value.JObj? {
      CompactNamesAt(f.value.fields);
      if Compacts(f, g) { assert g.value.fields == CompactNames(f.value.fields); }
    }
  }

  lemma BranchCompacts(f: Field, g: Field)
    requires KindOf(f.key).Branch?
    ensures g == CompactField(f) <==> Compacts(f, g)
  {
    if f.value.JArr? {
      CompactItemsAt(f.value.items);
      if Compacts(f, g) { assert g.value.items == CompactItems(f.value.items); }
    }
  }

  /** The compacted object has exactly the fields that its own become; what is no object is untouched. */
  lemma CompactExactly(schema: Json)
    ensures if schema.JObj? then
        && CompactSchema(schema).JObj?
        && forall g :: g in CompactSchema(schema).fields <==> exists f :: f in schema.fields && Compacts(f, g)
      else CompactSchema(schema) == schema
  {
    if schema.JObj? {
      CompactFieldsIn(schema.fields);
      forall f: Field, g: Field ensures !KindOf(f.key).Annotation? && g == CompactField(f) <==> Compacts(f, g) {
        FieldCompacts(f, g);
      }
    }
  }

  /** Removing annotations changes no verdict, for any schema and any instance, also below
      references into the equally compacted definitions. */
  lemma {:induction false} CompactPreserves(scope: Scope, schema: Json, v: Json)
    ensures Valid(CompactScope(scope), CompactSchema(schema), v) == Valid(scope, schema, v)
    decreases scope.depth, schema, 2
  {
    if schema.JObj? {
      var fields, compact := schema.fields, CompactFields(schema.fields);
      CompactFieldsIn(fields);
      forall f | f in fields
        ensures KindOf(f.key).Annotation? ==> Keyword(scope, fields, f, v)
        ensures !KindOf(f.key).Annotation?
          ==> Keyword(CompactScope(scope), compact, CompactField(f), v) == Keyword(scope, fields, f, v)
      {
        if !KindOf(f.key).Annotation? { CompactKeyword(scope, fields, f, v); }
      }
      if Valid(scope, schema, v) {
        forall g | g in compact ensures Keyword(CompactScope(scope), compact, g, v) {
          var f :| f in fields && !KindOf(f.key).Annotation? && g == CompactField(f);
        }
      } else {
        var f :| f in fields && !Keyword(scope, fields, f, v);
        assert !Keyword(CompactScope(scope), compact, CompactField(f), v);
      }
    }
  }

  function CompactScope(scope: Scope): Scope {
    scope.(defs := CompactNames(scope.defs))
  }

  lemma {:induction false} CompactKeyword(scope: Scope, fields: seq<Field>, f: Field, v: Json)
    requires f in fields && !KindOf(f.key).Annotation? && CompactField(f) in CompactFields(fields)
    ensures Keyword(CompactScope(scope), CompactFields(fields), CompactField(f), v) == Keyword(scope, fields, f, v)
    decreases scope.depth, fields, 1
  {
    match KindOf(f.key) {
      case Names => if f.value.JObj? && v.JObj? { CompactNamesEqual(scope, f.key, f.value.fields, v); }
      case Conditional => CompactConditional(scope, fields, f, v);
      case Child => CompactChild(scope, fields, f, v);
      case Branch => if f.value.JArr? { CompactBranches(scope, f.key, f.value.items, v); }
      case Reference => CompactReference(scope, fields, f, v);
      case _ =>
    }
  }

  lemma {:induction false} CompactBranches(scope: Scope, key: string, items: seq<Json>, v: Json)
    ensures Branches(CompactScope(scope), key, CompactItems(items), v) == Branches(scope, key, items, v)
    decreases scope.depth, items, 1
  {
    CompactAllWeaker(scope, items);
    BranchesEqual(scope, CompactScope(scope), key, items, CompactItems(items), v);
  }

  lemma {:induction false} CompactNamesEqual(scope: Scope, key: string, named: seq<Field>, v: Json)
    requires v.JObj?
    ensures ByName(CompactScope(scope), key, CompactNames(named), v) == ByName(scope, key, named, v)
    decreases scope.depth, named, 1
  {
    CompactNamesWeaker(scope, named);
    NamesMonotone(scope, CompactScope(scope), key, named, CompactNames(named), v);
    NamesMonotone(CompactScope(scope), scope, key, CompactNames(named), named, v);
  }

  lemma {:induction false} CompactConditional(scope: Scope, fields: seq<Field>, f: Field, v: Json)
    requires f in fields && KindOf(f.key).Conditional? && CompactField(f) in CompactFields(fields)
    ensures Keyword(CompactScope(scope), CompactFields(fields), CompactField(f), v) == Keyword(scope, fields, f, v)
    decreases scope.depth, fields, 0
  {
    CompactPreserves(scope, f.value, v);
    CompactFieldsGet(fields, "if");
    if Has(fields, "if") { CompactPreserves(scope, fields[IndexOf(fields, "if")].value, v); }
  }

  lemma {:induction false} CompactChild(scope: Scope, fields: seq<Field>, f: Field, v: Json)
    requires f in fields && KindOf(f.key).Child? && CompactField(f) in CompactFields(fields)
    ensures Keyword(CompactScope(scope), CompactFields(fields), CompactField(f), v) == Keyword(scope, fields, f, v)
    decreases scope.depth, fields, 0
  {
    var scope', sem := CompactScope(scope), scope.sem;
    CompactWeaker(scope, f.value);
    CompactSiblings(sem, fields);
    var covered := (k: string) => Covered(sem, fields, k);
    var covered' := (k: string) => Covered(sem, CompactFields(fields), k);
    ChildMonotone(scope, scope', f.key, f.value, CompactSchema(f.value), PrefixLength(fields), covered, covered', v);
    ChildMonotone(scope', scope, f.key, CompactSchema(f.value), f.value, PrefixLength(fields), covered', covered, v);
  }

  lemma {:induction false} CompactReference(scope: Scope, fields: seq<Field>, f: Field, v: Json)
    requires f in fields && KindOf(f.key).Reference? && CompactField(f) in CompactFields(fields)
    ensures Keyword(CompactScope(scope), CompactFields(fields), CompactField(f), v) == Keyword(scope, fields, f, v)
    decreases scope.depth, fields, 0
  {
    if f.value.JStr? && REFERENCE <= f.value.s && scope.depth > 0 {
      var name := f.value.s[|REFERENCE|..];
      CompactNamesGet(scope.defs, name);
      if Has(scope.defs, name) { CompactPreserves(scope.(depth := scope.depth - 1), Get(scope.defs, name), v); }
    }
    ReferenceField(f);
  }

  lemma ReferenceField(f: Field)
    requires KindOf(f.key).Reference?
    ensures CompactField(f) == f
  {
  }

  lemma {:induction false} CompactWeaker(scope: Scope, s: Json)
    ensures Weaker(scope, s, CompactScope(scope), CompactSchema(s))
      && Weaker(CompactScope(scope), CompactSchema(s), scope, s)
    decreases scope.depth, s, 3
  {
    forall w ensures Valid(CompactScope(scope), CompactSchema(s), w) == Valid(scope, s, w) {
      CompactPreserves(scope, s, w);
    }
  }

  lemma {:induction false} CompactNamesWeaker(scope: Scope, a: seq<Field>)
    ensures NamesWeaker(scope, a, CompactScope(scope), CompactNames(a))
      && NamesWeaker(CompactScope(scope), CompactNames(a), scope, a)
    decreases scope.depth, a, 0
  {
    CompactNamesAt(a);
    forall i | 0 <= i < |a|
      ensures Weaker(scope, a[i].value, CompactScope(scope), CompactSchema(a[i].value))
      ensures Weaker(CompactScope(scope), CompactSchema(a[i].value), scope, a[i].value)
    {
      CompactWeaker(scope, a[i].value);
    }
  }

  lemma {:induction false} CompactAllWeaker(scope: Scope, a: seq<Json>)
    ensures AllWeaker(scope, a, CompactScope(scope), CompactItems(a))
      && AllWeaker(CompactScope(scope), CompactItems(a), scope, a)
    decreases scope.depth, a, 0
  {
    CompactItemsAt(a);
    forall i | 0 <= i < |a|
      ensures Weaker(scope, a[i], CompactScope(scope), CompactSchema(a[i]))
      ensures Weaker(CompactScope(scope), CompactSchema(a[i]), scope, a[i])
    {
      CompactWeaker(scope, a[i]);
    }
  }

  lemma SiblingKinds()
    ensures KindOf("properties").Names? && KindOf("patternProperties").Names? && KindOf("prefixItems").Branch?
  {
  }

  /** Which properties and which array prefix the siblings speak for does not change. */
  lemma CompactSiblings(sem: Semantics, fields: seq<Field>)
    ensures PrefixLength(CompactFields(fields)) == PrefixLength(fields)
    ensures forall k :: Covered(sem, CompactFields(fields), k) == Covered(sem, fields, k)
  {
    SiblingKinds();
    CompactFieldsGet(fields, "prefixItems");
    if Has(fields, "prefixItems") && Get(fields, "prefixItems").JArr? {
      CompactItemsAt(Get(fields, "prefixItems").items);
    }
    forall k ensures Covered(sem, CompactFields(fields), k) == Covered(sem, fields, k) {
      CompactCovered(sem, fields, k);
    }
  }

  lemma CompactCovered(sem: Semantics, fields: seq<Field>, k: string)
    requires KindOf("properties").Names? && KindOf("patternProperties").Names?
    ensures Covered(sem, CompactFields(fields), k) == Covered(sem, fields, k)
  {
    CompactNamedAt(fields, "properties");
    CompactNamedAt(fields, "patternProperties");
    CompactNamesGet(Named(fields, "properties"), k);
    CompactNamesAt(Named(fields, "patternProperties"));
  }

  lemma CompactNamedAt(fields: seq<Field>, key: string)
    requires KindOf(key).Names?
    ensures Named(CompactFields(fields), key) == CompactNames(Named(fields, key))
  {
    CompactFieldsGet(fields, key);
  }

  /** The theorem about whole documents: the compacted parameters accept exactly what the original
      parameters accept. */
  lemma CompactAccepts(sem: Semantics, schema: Json, v: Json)
    ensures Accepts(sem, CompactSchema(schema), v) == Accepts(sem, schema, v)
  {
    CompactPreserves(Scope(sem, Definitions(schema), sem.depth), schema, v);
    if schema.JObj? { CompactNamedAt(schema.fields, "$defs"); }
  }
}
