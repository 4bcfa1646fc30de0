/** gemini_schema: the translation to the subset of JSON Schema that the Gemini API takes. */
module Gemini {
  import opened JsonValues
  import opened Schema

  /** Keys that the translation drops, or writes under another name, wherever they occur. */
  const DROPPED: set<string> := {"minLength", "maxLength", "pattern"}
  const REWRITTEN: set<string> := {"const", "enum", "minLength", "maxLength", "pattern"}

  /** An enum that lists nothing but evidence ids of this incident. */
  predicate IsEvidenceEnum(evidence: set<string>, f: Field) {
    f.key == "enum" && evidence != {} && f.value.JArr? && f.value.items != []
    && forall e | e in f.value.items :: e.JStr? && e.s in evidence
  }

  function Convert(evidence: set<string>, v: Json): Json
    decreases v, 1
  {
    match v
    case JArr(items) => JArr(ConvertItems(evidence, items))
    case JObj(fields) => JObj(Assign([], ConvertFields(evidence, fields)))
    case _ => v
  }

  function ConvertItems(evidence: set<string>, items: seq<Json>): seq<Json>
    decreases items, 0
  {
    if items == [] then [] else [Convert(evidence, items[0])] + ConvertItems(evidence, items[1..])
  }

  /** The assignments made to the result, in order. */
  function ConvertFields(evidence: set<string>, fields: seq<Field>): seq<Field>
    decreases fields, 0
  {
    if fields == [] then [] else Emit(evidence, fields[0]) + ConvertFields(evidence, fields[1..])
  }

  function Emit(evidence: set<string>, f: Field): (r: seq<Field>)
    ensures |r| <= 1
    decreases f, 0
  {
    if f.key == "const" then [Field("enum", JArr([f.value]))]
    else if IsEvidenceEnum(evidence, f) then []
    else if f.key in DROPPED then []
    else [Field(f.key, Convert(evidence, f.value))]
  }

  function Assign(result: seq<Field>, assignments: seq<Field>): seq<Field>
    decreases assignments
  {
    if assignments == [] then result
    else Assign(Put(result, assignments[0].key, assignments[0].value), assignments[1..])
  }

  /** The fragment on which the translation only weakens or, when `exact`, changes no verdict.
      Below a negation, a condition or a oneOf only the exact fragment will do. */
  predicate Fragment(evidence: set<string>, schema: Json, exact: bool, exactDefs: bool)
    decreases schema, 1
  {
    schema.JObj? ==>
      && UniqueKeys(schema.fields)
      && !(Has(schema.fields, "const") && Has(schema.fields, "enum"))
      && forall f | f in schema.fields :: FragmentField(evidence, f, exact, exactDefs)
  }

  predicate FragmentField(evidence: set<string>, f: Field, exact: bool, exactDefs: bool)
    decreases f, 0
  {
    match KindOf(f.key)
    case Annotation => true
    case Names => f.value.JObj? ==> FragmentNames(evidence, f.value.fields, exact, exactDefs)
    case Conditional => Fragment(evidence, f.value, exact || f.key == "if", exactDefs)
    case Child => Fragment(evidence, f.value, exact || f.key == "not", exactDefs)
    case Branch => f.value.JArr?
      ==> forall s | s in f.value.items :: Fragment(evidence, s, exact || f.key == "oneOf", exactDefs)
    case Reference => f.value.JStr? && (exact ==> exactDefs)
    case Plain =>
      if f.key == "const" then true
      else if f.key == "enum" then
        Untouched(evidence, f.value) && (exact ==> !IsEvidenceEnum(evidence, f))
      else if f.key in DROPPED then !exact
      else Untouched(evidence, f.value)
  }

  /** Names of properties, patterns or definitions: none may be a key that the translation rewrites. */
  predicate FragmentNames(evidence: set<string>, named: seq<Field>, exact: bool, exactDefs: bool)
    decreases named, 0
  {
    && UniqueKeys(named)
    && forall p | p in named :: p.key !in REWRITTEN && Fragment(evidence, p.value, exact, exactDefs)
  }

  /** A value that is not a schema and that the translation leaves alone, as every list of names is. */
  predicate Untouched(evidence: set<string>, v: Json) {
    Convert(evidence, v) == v
  }

  // --- The result is what the assignments say ---

  lemma {:induction false} PutFresh(fields: seq<Field>, key: string, value: Json)
    requires forall f :: f in fields ==> f.key != key
    ensures Put(fields, key, value) == fields + [Field(key, value)]
  {
    if fields != [] {
      assert fields[0] in fields;
      forall f | f in fields[1..] ensures f.key != key { assert f in fields; }
      PutFresh(fields[1..], key, value);
    }
  }

  lemma {:induction false} AssignUnique(result: seq<Field>, assignments: seq<Field>)
    requires UniqueKeys(result + assignments)
    ensures Assign(result, assignments) == result + assignments
    decreases assignments
  {
    if assignments != [] {
      var a := assignments[0];
      forall f | f in result ensures f.key != a.key {
        var i :| 0 <= i < |result| && result[i] == f;
        assert (result + assignments)[i].key != (result + assignments)[|result|].key;
      }
      PutFresh(result, a.key, a.value);
      assert result + [Field(a.key, a.value)] + assignments[1..] == result + assignments;
      AssignUnique(result + [a], assignments[1..]);
    }
  }

  lemma {:induction false} ConvertFieldsKeys(evidence: set<string>, fields: seq<Field>, key: string)
    requires forall f :: f in fields ==> f.key != key
    requires key == "enum" ==> forall f :: f in fields ==> f.key != "const"
    ensures forall g :: g in ConvertFields(evidence, fields) ==> g.key != key
  {
    if fields != [] {
      assert fields[0] in fields;
      forall f | f in fields[1..] ensures f in fields {}
      ConvertFieldsKeys(evidence, fields[1..], key);
    }
  }

  lemma {:induction false} ConvertFieldsUnique(evidence: set<string>, fields: seq<Field>)
    requires UniqueKeys(fields) && !(Has(fields, "const") && Has(fields, "enum"))
    ensures UniqueKeys(ConvertFields(evidence, fields))
  {
    if fields != [] {
      var f, rest := fields[0], fields[1..];
      forall k | Has(rest, k) ensures Has(fields, k) { HasWhenPresent(fields, rest[IndexOf(rest, k)]); }
      ConvertFieldsUnique(evidence, rest);
      HasWhenPresent(fields, f);
      forall g | g in rest ensures g.key != f.key && Has(fields, g.key) {
        HasWhenPresent(fields, g);
        var i :| 0 <= i < |rest| && rest[i] == g;
        assert fields[i + 1].key != fields[0].key;
      }
      var e := Emit(evidence, f);
      if e != [] {
        ConvertFieldsKeys(evidence, rest, e[0].key);
        PrependUnique(e[0], ConvertFields(evidence, rest));
        assert e == [e[0]];
      } else {
        assert e + ConvertFields(evidence, rest) == ConvertFields(evidence, rest);
      }
    }
  }

  lemma PrependUnique(g: Field, fields: seq<Field>)
    requires UniqueKeys(fields) && forall h :: h in fields ==> h.key != g.key
    ensures UniqueKeys([g] + fields)
  {
    var all := [g] + fields;
    forall i, j | 0 <= i < j < |all| ensures all[i].key != all[j].key {
      assert all[j] == fields[j - 1] && fields[j - 1] in fields;
    }
  }

  lemma ConvertObject(evidence: set<string>, fields: seq<Field>)
    requires UniqueKeys(fields) && !(Has(fields, "const") && Has(fields, "enum"))
    ensures Convert(evidence, JObj(fields)) == JObj(ConvertFields(evidence, fields))
  {
    ConvertFieldsUnique(evidence, fields);
    assert [] + ConvertFields(evidence, fields) == ConvertFields(evidence, fields);
    AssignUnique([], ConvertFields(evidence, fields));
  }

  lemma {:induction false} ConvertFieldsIn(evidence: set<string>, fields: seq<Field>)
    ensures forall f :: f in fields && Emit(evidence, f) != [] ==>
      Emit(evidence, f)[0] in ConvertFields(evidence, fields)
    ensures forall g :: g in ConvertFields(evidence, fields) ==> exists f :: f in fields && Emit(evidence, f) == [g]
  {
    if fields != [] {
      ConvertFieldsIn(evidence, fields[1..]);
      var e := Emit(evidence, fields[0]);
      forall g | g in ConvertFields(evidence, fields) ensures exists f :: f in fields && Emit(evidence, f) == [g] {
        if g !in e {
          var f :| f in fields[1..] && Emit(evidence, f) == [g];
        } else {
          assert fields[0] in fields && Emit(evidence, fields[0]) == [g];
        }
      }
    }
  }

  lemma {:induction false} ConvertFieldsGet(evidence: set<string>, fields: seq<Field>, key: string)
    requires key !in REWRITTEN
    ensures Has(ConvertFields(evidence, fields), key) == Has(fields, key)
    ensures Has(fields, key) ==> Get(ConvertFields(evidence, fields), key) == Convert(evidence, Get(fields, key))
  {
    if fields != [] {
      ConvertFieldsGet(evidence, fields[1..], key);
      assert fields == [fields[0]] + fields[1..];
      PrependGet(fields[0], fields[1..], key);
      EmitGet(evidence, fields[0], ConvertFields(evidence, fields[1..]), key);
    }
  }

  /** What one emitted field adds to a lookup. */
  lemma EmitGet(evidence: set<string>, f: Field, rest: seq<Field>, key: string)
    requires key !in REWRITTEN
    ensures Has(Emit(evidence, f) + rest, key) == (f.key == key || Has(rest, key))
    ensures f.key == key ==> Get(Emit(evidence, f) + rest, key) == Convert(evidence, f.value)
    ensures f.key != key && Has(rest, key) ==> Get(Emit(evidence, f) + rest, key) == Get(rest, key)
  {
    var e := Emit(evidence, f);
    if e == [] {
      assert e + rest == rest;
    } else {
      assert e == [e[0]];
      PrependGet(e[0], rest, key);
    }
  }

  lemma {:induction false} ConvertItemsAt(evidence: set<string>, items: seq<Json>)
    ensures |ConvertItems(evidence, items)| == |items|
    ensures forall i :: 0 <= i < |items| ==> ConvertItems(evidence, items)[i] == Convert(evidence, items[i])
  {
    if items != [] { ConvertItemsAt(evidence, items[1..]); }
  }

  /** Safe names stay, in place, over translated schemas. */
  lemma {:induction false} ConvertNames(evidence: set<string>, named: seq<Field>)
    requires forall p :: p in named ==> p.key !in REWRITTEN
    ensures |ConvertFields(evidence, named)| == |named|
    ensures forall i :: 0 <= i < |named| ==>
      ConvertFields(evidence, named)[i] == Field(named[i].key, Convert(evidence, named[i].value))
  {
    if named != [] {
      assert named[0] in named;
      forall p | p in named[1..] ensures p in named {}
      ConvertNames(evidence, named[1..]);
    }
  }

  // --- The translation, field by field ---

  /** A non-empty list of ids of this incident's evidence and of nothing else. */
  predicate ListsEvidence(evidence: set<string>, v: Json) {
    v.JArr? && v.items != [] && forall i | 0 <= i < |v.items| :: v.items[i].JStr? && v.items[i].s in evidence
  }

  /** What one field of a schema object becomes: a constant becomes a list of one, lists of evidence ids and the
      limits on texts go, and every other field keeps its name over its translated value. */
  predicate Becomes(evidence: set<string>, f: Field, g: Field) {
    match f.key
    case "const" => g == Field("enum", JArr([f.value]))
    case "enum" => !(evidence != {} && ListsEvidence(evidence, f.value))
      && g == Field("enum", Convert(evidence, f.value))
    case "minLength" => false
    case "maxLength" => false
    case "pattern" => false
    case _ => g == Field(f.key, Convert(evidence, f.value))
  }

  lemma EmitExactly(evidence: set<string>, f: Field, g: Field)
    ensures Emit(evidence, f) == [g] <==> Becomes(evidence, f, g)
  {
    if f.value.JArr? {
      assert (forall e | e in f.value.items :: e.JStr? && e.s in evidence)
        <==> forall i | 0 <= i < |f.value.items| :: f.value.items[i].JStr? && f.value.items[i].s in evidence;
    }
  }

  /** The translation of an object with distinct keys, not both a constant and a list of values: the result has
      exactly the fields that its own become, under distinct keys. Lists are translated item by item, and
      everything else stays. */
  lemma ConvertExactly(evidence: set<string>, v: Json)
    ensures v.JObj? && UniqueKeys(v.fields) && !(Has(v.fields, "const") && Has(v.fields, "enum")) ==>
      && Convert(evidence, v).JObj? && UniqueKeys(Convert(evidence, v).fields)
      && forall g :: g in Convert(evidence, v).fields <==> exists f :: f in v.fields && Becomes(evidence, f, g)
    ensures v.JArr? ==>
      && Convert(evidence, v).JArr? && |Convert(evidence, v).items| == |v.items|
      && forall i :: 0 <= i < |v.items| ==> Convert(evidence, v).items[i] == Convert(evidence, v.items[i])
    ensures !v.JObj? && !v.JArr? ==> Convert(evidence, v) == v
  {
    if v.JArr? { ConvertItemsAt(evidence, v.items); }
    if v.JObj? && UniqueKeys(v.fields) && !(Has(v.fields, "const") && Has(v.fields, "enum")) {
      ConvertObject(evidence, v.fields);
      ConvertFieldsUnique(evidence, v.fields);
      FieldsExactly(evidence, v.fields);
    }
  }

  lemma FieldsExactly(evidence: set<string>, fields: seq<Field>)
    ensures forall g :: g in ConvertFields(evidence, fields) <==> exists f :: f in fields && Becomes(evidence, f, g)
  {
    ConvertFieldsIn(evidence, fields);
    forall f: Field, g: Field ensures Emit(evidence, f) == [g] <==> Becomes(evidence, f, g) {
      EmitExactly(evidence, f, g);
    }
  }

  // --- What the translation does to verdicts ---

  function Translated(evidence: set<string>, scope: Scope): Scope {
    scope.(defs := ConvertFields(evidence, scope.defs))
  }

  predicate FragmentScope(evidence: set<string>, scope: Scope, exactDefs: bool) {
    FragmentNames(evidence, scope.defs, exactDefs, exactDefs)
  }

  /** Everything a schema of the fragment accepts, its translation accepts; in the exact fragment
      it accepts nothing more. */
  lemma {:induction false} Translation(evidence: set<string>, scope: Scope, s: Json, exact: bool, exactDefs: bool,
                                       v: Json)
    requires FragmentScope(evidence, scope, exactDefs) && Fragment(evidence, s, exact, exactDefs)
    ensures Valid(scope, s, v) ==> Valid(Translated(evidence, scope), Convert(evidence, s), v)
    ensures exact ==> Valid(scope, s, v) == Valid(Translated(evidence, scope), Convert(evidence, s), v)
    decreases scope.depth, s, 2
  {
    if s.JObj? {
      var fields, scope' := s.fields, Translated(evidence, scope);
      var fields' := ConvertFields(evidence, fields);
      ConvertObject(evidence, fields);
      ConvertFieldsIn(evidence, fields);
      if Valid(scope, s, v) {
        forall g | g in fields' ensures Keyword(scope', fields', g, v) {
          var f :| f in fields && Emit(evidence, f) == [g];
          TranslationKeyword(evidence, scope, fields, f, exact, exactDefs, v);
        }
      } else if exact {
        TranslationRejects(evidence, scope, fields, exactDefs, v);
      }
    }
  }

  /** In the exact fragment the keyword that rejects an instance is emitted and rejects it too. */
  lemma {:induction false} TranslationRejects(evidence: set<string>, scope: Scope, fields: seq<Field>,
                                              exactDefs: bool, v: Json)
    requires FragmentScope(evidence, scope, exactDefs) && Fragment(evidence, JObj(fields), true, exactDefs)
    requires !Valid(scope, JObj(fields), v)
    ensures !Valid(Translated(evidence, scope), JObj(ConvertFields(evidence, fields)), v)
    decreases scope.depth, fields, 2
  {
    var f :| f in fields && !Keyword(scope, fields, f, v);
    EmittedWhenExact(evidence, f, exactDefs);
    ConvertFieldsIn(evidence, fields);
    TranslationKeyword(evidence, scope, fields, f, true, exactDefs, v);
    assert !Keyword(Translated(evidence, scope), ConvertFields(evidence, fields), Emit(evidence, f)[0], v);
  }

  lemma EmittedWhenExact(evidence: set<string>, f: Field, exactDefs: bool)
    requires FragmentField(evidence, f, true, exactDefs)
    ensures !KindOf(f.key).Annotation? ==> Emit(evidence, f) != []
  {
    RewrittenArePlain();
  }

  lemma RewrittenArePlain()
    ensures forall k :: k in REWRITTEN ==> KindOf(k).Plain?
    ensures KindOf("properties").Names? && KindOf("patternProperties").Names? && KindOf("prefixItems").Branch?
      && KindOf("if").Conditional?
  {
  }

  lemma {:induction false} TranslationKeyword(evidence: set<string>, scope: Scope, fields: seq<Field>, f: Field,
                                              exact: bool, exactDefs: bool, v: Json)
    requires FragmentScope(evidence, scope, exactDefs) && Fragment(evidence, JObj(fields), exact, exactDefs)
    requires f in fields && Emit(evidence, f) != [] && Emit(evidence, f)[0] in ConvertFields(evidence, fields)
    ensures Keyword(scope, fields, f, v)
      ==> Keyword(Translated(evidence, scope), ConvertFields(evidence, fields), Emit(evidence, f)[0], v)
    ensures exact && !KindOf(f.key).Annotation? ==>
      Keyword(scope, fields, f, v)
        == Keyword(Translated(evidence, scope), ConvertFields(evidence, fields), Emit(evidence, f)[0], v)
    decreases scope.depth, fields, 1
  {
    RewrittenArePlain();
    if KindOf(f.key).Plain? {
      TranslationPlain(evidence, scope, fields, f, exact, exactDefs, v);
    } else {
      assert f.key !in REWRITTEN;
      match KindOf(f.key) {
        case Names =>
          if f.value.JObj? && v.JObj? { TranslationNames(evidence, scope, f.key, f.value.fields, exact, exactDefs, v); }
        case Conditional => TranslationConditional(evidence, scope, fields, f, exact, exactDefs, v);
        case Child => TranslationChild(evidence, scope, fields, f, exact, exactDefs, v);
        case Branch =>
          if f.value.JArr? { TranslationBranches(evidence, scope, f.key, f.value.items, exact, exactDefs, v); }
        case Reference => TranslationReference(evidence, scope, fields, f, exact, exactDefs, v);
        case _ =>
      }
    }
  }

  lemma TranslationPlain(evidence: set<string>, scope: Scope, fields: seq<Field>, f: Field, exact: bool,
                         exactDefs: bool, v: Json)
    requires FragmentField(evidence, f, exact, exactDefs) && KindOf(f.key).Plain?
    requires f in fields && Emit(evidence, f) != [] && Emit(evidence, f)[0] in ConvertFields(evidence, fields)
    ensures Keyword(scope, fields, f, v)
      == Keyword(Translated(evidence, scope), ConvertFields(evidence, fields), Emit(evidence, f)[0], v)
  {
    RewrittenArePlain();
    var g := Emit(evidence, f)[0];
    if f.key == "const" {
      assert Simple(scope.sem, g, v) == scope.sem.same(v, f.value) by {
        assert g.value.items == [f.value] && f.value in g.value.items;
      }
    } else {
      assert g == f;
    }
  }

  /** The induction hypothesis for one subschema, in the form the keyword lemmas take. */
  lemma {:induction false} TranslationWeaker(evidence: set<string>, scope: Scope, s: Json, exact: bool, exactDefs: bool)
    requires FragmentScope(evidence, scope, exactDefs) && Fragment(evidence, s, exact, exactDefs)
    ensures Weaker(scope, s, Translated(evidence, scope), Convert(evidence, s))
    ensures exact ==> Weaker(Translated(evidence, scope), Convert(evidence, s), scope, s)
    decreases scope.depth, s, 3
  {
    forall w
      ensures Valid(scope, s, w) ==> Valid(Translated(evidence, scope), Convert(evidence, s), w)
      ensures exact ==> Valid(scope, s, w) == Valid(Translated(evidence, scope), Convert(evidence, s), w)
    {
      Translation(evidence, scope, s, exact, exactDefs, w);
    }
  }

  lemma {:induction false} TranslationNames(evidence: set<string>, scope: Scope, key: string, named: seq<Field>,
                                            exact: bool, exactDefs: bool, v: Json)
    requires FragmentScope(evidence, scope, exactDefs) && FragmentNames(evidence, named, exact, exactDefs) && v.JObj?
    ensures Convert(evidence, JObj(named)) == JObj(ConvertFields(evidence, named))
    ensures ByName(scope, key, named, v) ==> ByName(Translated(evidence, scope), key, ConvertFields(evidence, named), v)
    ensures exact ==>
      ByName(scope, key, named, v)
      == ByName(Translated(evidence, scope), key, ConvertFields(evidence, named), v)
    decreases scope.depth, named, 1
  {
    SafeNames(evidence, named);
    ConvertNames(evidence, named);
    var scope', named' := Translated(evidence, scope), ConvertFields(evidence, named);
    forall i | 0 <= i < |named|
      ensures Weaker(scope, named[i].value, scope', named'[i].value)
      ensures exact ==> Weaker(scope', named'[i].value, scope, named[i].value)
    {
      assert named[i] in named;
      TranslationWeaker(evidence, scope, named[i].value, exact, exactDefs);
    }
    NamesMonotone(scope, scope', key, named, named', v);
    if exact { NamesMonotone(scope', scope, key, named', named, v); }
  }

  lemma SafeNames(evidence: set<string>, named: seq<Field>)
    requires UniqueKeys(named) && forall p :: p in named ==> p.key !in REWRITTEN
    ensures Convert(evidence, JObj(named)) == JObj(ConvertFields(evidence, named))
  {
    ConvertObject(evidence, named);
  }

  lemma {:induction false} TranslationBranches(evidence: set<string>, scope: Scope, key: string, items: seq<Json>,
                                               exact: bool, exactDefs: bool, v: Json)
    requires FragmentScope(evidence, scope, exactDefs)
    requires forall s :: s in items ==> Fragment(evidence, s, exact || key == "oneOf", exactDefs)
    ensures Branches(scope, key, items, v)
      ==> Branches(Translated(evidence, scope), key, ConvertItems(evidence, items), v)
    ensures exact ==>
      Branches(scope, key, items, v)
      == Branches(Translated(evidence, scope), key, ConvertItems(evidence, items), v)
    decreases scope.depth, items, 1
  {
    ConvertItemsAt(evidence, items);
    var scope', items', both := Translated(evidence, scope), ConvertItems(evidence, items), exact || key == "oneOf";
    forall i | 0 <= i < |items|
      ensures Weaker(scope, items[i], scope', items'[i])
      ensures both ==> Weaker(scope', items'[i], scope, items[i])
    {
      assert items[i] in items;
      TranslationWeaker(evidence, scope, items[i], both, exactDefs);
    }
    if both {
      BranchesEqual(scope, scope', key, items, items', v);
    } else if Branches(scope, key, items, v) {
      BranchesMonotone(scope, scope', key, items, items', v);
    }
  }

  lemma {:induction false} TranslationConditional(evidence: set<string>, scope: Scope, fields: seq<Field>, f: Field,
                                                  exact: bool, exactDefs: bool, v: Json)
    requires FragmentScope(evidence, scope, exactDefs) && Fragment(evidence, JObj(fields), exact, exactDefs)
    requires f in fields && KindOf(f.key).Conditional?
      && Emit(evidence, f) == [Field(f.key, Convert(evidence, f.value))]
    requires Emit(evidence, f)[0] in ConvertFields(evidence, fields)
    ensures Keyword(scope, fields, f, v)
      ==> Keyword(Translated(evidence, scope), ConvertFields(evidence, fields), Emit(evidence, f)[0], v)
    ensures exact ==>
      Keyword(scope, fields, f, v)
      == Keyword(Translated(evidence, scope), ConvertFields(evidence, fields), Emit(evidence, f)[0], v)
    decreases scope.depth, fields, 0
  {
    ConvertFieldsGet(evidence, fields, "if");
    Translation(evidence, scope, f.value, exact || f.key == "if", exactDefs, v);
    if Has(fields, "if") {
      var c := fields[IndexOf(fields, "if")];
      assert FragmentField(evidence, c, exact, exactDefs);
      RewrittenArePlain();
      Translation(evidence, scope, c.value, true, exactDefs, v);
    }
  }

  lemma {:induction false} TranslationChild(evidence: set<string>, scope: Scope, fields: seq<Field>, f: Field,
                                            exact: bool, exactDefs: bool, v: Json)
    requires FragmentScope(evidence, scope, exactDefs) && Fragment(evidence, JObj(fields), exact, exactDefs)
    requires f in fields && KindOf(f.key).Child? && Emit(evidence, f) == [Field(f.key, Convert(evidence, f.value))]
    requires Emit(evidence, f)[0] in ConvertFields(evidence, fields)
    ensures Keyword(scope, fields, f, v)
      ==> Keyword(Translated(evidence, scope), ConvertFields(evidence, fields), Emit(evidence, f)[0], v)
    ensures exact ==>
      Keyword(scope, fields, f, v)
      == Keyword(Translated(evidence, scope), ConvertFields(evidence, fields), Emit(evidence, f)[0], v)
    decreases scope.depth, fields, 0
  {
    var scope', sem, fields' := Translated(evidence, scope), scope.sem, ConvertFields(evidence, fields);
    TranslationWeaker(evidence, scope, f.value, exact || f.key == "not", exactDefs);
    TranslationSiblings(evidence, sem, fields, exact, exactDefs);
    var covered, covered' := (k: string) => Covered(sem, fields, k), (k: string) => Covered(sem, fields', k);
    ChildMonotone(scope, scope', f.key, f.value, Convert(evidence, f.value), PrefixLength(fields), covered, covered',
      v);
    if exact {
      ChildMonotone(scope', scope, f.key, Convert(evidence, f.value), f.value, PrefixLength(fields), covered',
        covered, v);
    }
  }

  lemma TranslationSiblings(evidence: set<string>, sem: Semantics, fields: seq<Field>, exact: bool, exactDefs: bool)
    requires Fragment(evidence, JObj(fields), exact, exactDefs)
    ensures PrefixLength(ConvertFields(evidence, fields)) == PrefixLength(fields)
    ensures forall k :: Covered(sem, ConvertFields(evidence, fields), k) == Covered(sem, fields, k)
  {
    ConvertFieldsGet(evidence, fields, "prefixItems");
    if Has(fields, "prefixItems") && Get(fields, "prefixItems").JArr? {
      ConvertItemsAt(evidence, Get(fields, "prefixItems").items);
    }
    TranslationNamed(evidence, fields, "properties", exact, exactDefs);
    TranslationNamed(evidence, fields, "patternProperties", exact, exactDefs);
    forall k ensures Covered(sem, ConvertFields(evidence, fields), k) == Covered(sem, fields, k) {
      SameNamesSameKeys(Named(ConvertFields(evidence, fields), "properties"), Named(fields, "properties"), k);
    }
  }

  lemma {:induction false} SameNamesSameKeys(a: seq<Field>, b: seq<Field>, k: string)
    requires |a| == |b| && forall i :: 0 <= i < |a| ==> a[i].key == b[i].key
    ensures Has(a, k) == Has(b, k)
  {
    if a != [] { SameNamesSameKeys(a[1..], b[1..], k); }
  }

  lemma TranslationNamed(evidence: set<string>, fields: seq<Field>, key: string, exact: bool, exactDefs: bool)
    requires Fragment(evidence, JObj(fields), exact, exactDefs) && key in {"properties", "patternProperties"}
    ensures var a, b := Named(ConvertFields(evidence, fields), key), Named(fields, key);
      |a| == |b| && forall i :: 0 <= i < |a| ==> a[i].key == b[i].key
  {
    NamesAreNotRewritten(key);
    ConvertFieldsGet(evidence, fields, key);
    if Has(fields, key) && Get(fields, key).JObj? {
      NamedInFragment(evidence, fields, key, exact, exactDefs);
      ConvertNames(evidence, Get(fields, key).fields);
    }
  }

  lemma NamesAreNotRewritten(key: string)
    requires key in {"properties", "patternProperties"}
    ensures key !in REWRITTEN && KindOf(key).Names?
  {
  }

  /** No property of the fragment is named after a key that the translation rewrites, so the names
      are translated one by one. */
  lemma NamedInFragment(evidence: set<string>, fields: seq<Field>, key: string, exact: bool, exactDefs: bool)
    requires Fragment(evidence, JObj(fields), exact, exactDefs) && KindOf(key).Names?
    requires Has(fields, key) && Get(fields, key).JObj?
    ensures forall p :: p in Get(fields, key).fields ==> p.key !in REWRITTEN
    ensures Convert(evidence, Get(fields, key)) == JObj(ConvertFields(evidence, Get(fields, key).fields))
  {
    var f := fields[IndexOf(fields, key)];
    assert FragmentField(evidence, f, exact, exactDefs);
    SafeNames(evidence, f.value.fields);
  }

  lemma {:induction false} TranslationReference(evidence: set<string>, scope: Scope, fields: seq<Field>, f: Field,
                                                exact: bool, exactDefs: bool, v: Json)
    requires FragmentScope(evidence, scope, exactDefs) && FragmentField(evidence, f, exact, exactDefs)
    requires f in fields && KindOf(f.key).Reference? && Emit(evidence, f) == [Field(f.key, Convert(evidence, f.value))]
    requires Emit(evidence, f)[0] in ConvertFields(evidence, fields)
    ensures Keyword(scope, fields, f, v)
      ==> Keyword(Translated(evidence, scope), ConvertFields(evidence, fields), Emit(evidence, f)[0], v)
    ensures exact ==>
      Keyword(scope, fields, f, v)
      == Keyword(Translated(evidence, scope), ConvertFields(evidence, fields), Emit(evidence, f)[0], v)
    decreases scope.depth, fields, 0
  {
    var scope', fields', g := Translated(evidence, scope), ConvertFields(evidence, fields), Emit(evidence, f)[0];
    assert g == f;
    ReferenceKeyword(scope, fields, f, v);
    ReferenceKeyword(scope', fields', g, v);
    if REFERENCE <= f.value.s && scope.depth > 0 {
      var name := f.value.s[|REFERENCE|..];
      NamesGet(evidence, scope.defs, name);
      if Has(scope.defs, name) {
        assert scope.defs[IndexOf(scope.defs, name)] in scope.defs;
        var below := scope.(depth := scope.depth - 1);
        assert Translated(evidence, below) == scope'.(depth := scope'.depth - 1);
        Translation(evidence, below, Get(scope.defs, name), exactDefs, exactDefs, v);
      }
    }
  }

  /** Whether the definition that `reference` names accepts `v`. */
  predicate Referred(scope: Scope, reference: string, v: Json) {
    REFERENCE <= reference && scope.depth > 0
    && var name := reference[|REFERENCE|..];
       Has(scope.defs, name) && Valid(scope.(depth := scope.depth - 1), Get(scope.defs, name), v)
  }

  lemma ReferenceKeyword(scope: Scope, fields: seq<Field>, f: Field, v: Json)
    requires f in fields && KindOf(f.key).Reference? && f.value.JStr?
    ensures Keyword(scope, fields, f, v) == Referred(scope, f.value.s, v)
  {
  }

  lemma NamesGet(evidence: set<string>, named: seq<Field>, name: string)
    requires forall p :: p in named ==> p.key !in REWRITTEN
    ensures Has(ConvertFields(evidence, named), name) == Has(named, name)
    ensures Has(named, name) ==> Get(ConvertFields(evidence, named), name) == Convert(evidence, Get(named, name))
  {
    if Has(named, name) { assert named[IndexOf(named, name)] in named; }
    ConvertNames(evidence, named);
    SameNamesSameKeys(ConvertFields(evidence, named), named, name);
    if Has(named, name) { SameIndex(ConvertFields(evidence, named), named, name); }
  }

  lemma SameIndex(a: seq<Field>, b: seq<Field>, k: string)
    requires |a| == |b| && forall i :: 0 <= i < |a| ==> a[i].key == b[i].key
    ensures IndexOf(a, k) == IndexOf(b, k)
  {
    var i, j := IndexOf(a, k), IndexOf(b, k);
    assert i < |a| ==> b[i].key == k;
    assert j < |b| ==> a[j].key == k;
  }

  /** The theorem about whole documents. */
  lemma GeminiAccepts(evidence: set<string>, sem: Semantics, schema: Json, exact: bool, v: Json)
    requires Fragment(evidence, schema, exact, exact)
    ensures Accepts(sem, schema, v) ==> Accepts(sem, Convert(evidence, schema), v)
    ensures exact ==> Accepts(sem, schema, v) == Accepts(sem, Convert(evidence, schema), v)
  {
    var scope := Scope(sem, Definitions(schema), sem.depth);
    DefinitionsTranslated(evidence, schema, exact);
    Translation(evidence, scope, schema, exact, exact, v);
  }

  lemma DefinitionsTranslated(evidence: set<string>, schema: Json, exact: bool)
    requires Fragment(evidence, schema, exact, exact)
    ensures FragmentNames(evidence, Definitions(schema), exact, exact)
    ensures Definitions(Convert(evidence, schema)) == ConvertFields(evidence, Definitions(schema))
  {
    if schema.JObj? {
      var fields := schema.fields;
      ConvertObject(evidence, fields);
      ConvertFieldsGet(evidence, fields, "$defs");
      assert KindOf("$defs").Names?;
      if Has(fields, "$defs") && Get(fields, "$defs").JObj? {
        var f := fields[IndexOf(fields, "$defs")];
        assert FragmentField(evidence, f, exact, exact);
        SafeNames(evidence, f.value.fields);
      }
    }
  }

  // --- Where the fragment ends ---

  /** An object schema with one property, called `name`, that allows no other. */
  function Closed(named: seq<Field>): Json {
    JObj([Field("properties", JObj(named)), Field("additionalProperties", JBool(false))])
  }

  lemma ClosedVerdict(scope: Scope, named: seq<Field>, key: string)
    requires named == [] || named == [Field(key, JBool(true))]
    ensures Valid(scope, Closed(named), JObj([Field(key, JInt(1))])) == (named != [])
  {
    var v, fields := JObj([Field(key, JInt(1))]), Closed(named).fields;
    RewrittenArePlain();
    assert Named(fields, "properties") == named && Named(fields, "patternProperties") == [];
    assert ByName(scope, "properties", named, v);
    var covered := (k: string) => Covered(scope.sem, fields, k);
    assert covered(key) == (named != []);
    assert KindOf("additionalProperties").Child?;
    assert Below(scope, "additionalProperties", JBool(false), 0, covered, v) == (named != []) by {
      assert v.fields[0].key == key;
    }
    assert PrefixLength(fields) == 0;
    assert forall f | f in fields :: f == fields[0] || f == fields[1];
    assert Keyword(scope, fields, fields[0], v);
    assert Keyword(scope, fields, fields[1], v) == (named != []);
  }

  lemma ClosedConverts(key: string)
    requires key in DROPPED
    ensures Convert({}, Closed([Field(key, JBool(true))])) == Closed([])
  {
    var named := [Field(key, JBool(true))];
    var fields := Closed(named).fields;
    assert Emit({}, named[0]) == [] && named[1..] == [];
    assert ConvertFields({}, named) == [];
    ConvertObject({}, named);
    assert fields[1..] == [fields[1]] && fields[1..][1..] == [];
    ConvertObject({}, fields);
    assert Emit({}, fields[0]) == [Field("properties", JObj([]))];
    assert Emit({}, fields[1]) == [fields[1]];
    assert ConvertFields({}, fields[1..][1..]) == [];
    assert ConvertFields({}, fields[1..]) == [fields[1]];
  }

  /** Outside the fragment the translation can reject what its input accepts: a property whose name
      is a dropped key disappears from the list of properties, and nothing else is allowed. */
  lemma DroppedPropertyRejects(sem: Semantics, key: string)
    requires key in DROPPED
    ensures var schema, v := Closed([Field(key, JBool(true))]), JObj([Field(key, JInt(1))]);
      Accepts(sem, schema, v) && !Accepts(sem, Convert({}, schema), v)
  {
    var named := [Field(key, JBool(true))];
    ClosedVerdict(Scope(sem, Definitions(Closed(named)), sem.depth), named, key);
    ClosedVerdict(Scope(sem, Definitions(Closed([])), sem.depth), [], key);
    ClosedConverts(key);
  }

  function Negation(schema: Json): Json {
    JObj([Field("not", schema)])
  }

  lemma NegationVerdict(scope: Scope, schema: Json, v: Json)
    ensures Valid(scope, Negation(schema), v) == !Valid(scope, schema, v)
  {
    var fields := Negation(schema).fields;
    assert KindOf("not").Child?;
    assert Keyword(scope, fields, fields[0], v) == !Valid(scope, schema, v);
  }

  lemma NegationConverts(fields: seq<Field>)
    requires |fields| == 1 && fields[0].key in DROPPED
    ensures Convert({}, Negation(JObj(fields))) == Negation(JObj([]))
  {
    var outer := Negation(JObj(fields)).fields;
    ConvertObject({}, fields);
    ConvertObject({}, outer);
    assert fields[1..] == [] && outer[1..] == [];
    assert ConvertFields({}, fields) == [];
  }

  lemma LimitVerdict(scope: Scope, limit: nat, s: string)
    ensures Valid(scope, JObj([Field("minLength", JInt(limit))]), JStr(s)) == (limit <= |s|)
  {
    var fields := [Field("minLength", JInt(limit))];
    RewrittenArePlain();
    assert Keyword(scope, fields, fields[0], JStr(s)) == (limit <= |s|);
  }

  /** Nor does it weaken below a negation: without its length limit, "not" accepts nothing, so every
      text that was too short is rejected. */
  lemma NegatedLimitRejects(sem: Semantics, limit: nat, s: string)
    requires |s| < limit
    ensures var schema := Negation(JObj([Field("minLength", JInt(limit))]));
      Accepts(sem, schema, JStr(s)) && !Accepts(sem, Convert({}, schema), JStr(s))
  {
    var inner := [Field("minLength", JInt(limit))];
    NegationConverts(inner);
    var scope := Scope(sem, Definitions(Negation(JObj(inner))), sem.depth);
    var scope' := Scope(sem, Definitions(Negation(JObj([]))), sem.depth);
    NegationVerdict(scope, JObj(inner), JStr(s));
    NegationVerdict(scope', JObj([]), JStr(s));
    LimitVerdict(scope, limit, s);
  }
}
