/** Canonical argument text and the message a write approval signs. */
module Canonical {
  import opened JsonValues
  import opened JsonText

  /** Python's order on strings: by code point, a prefix first. */
  predicate Leq(a: string, b: string) {
    a == [] || (b != [] && if a[0] == b[0] then Leq(a[1..], b[1..]) else a[0] < b[0])
  }

  function Insert(f: Field, fields: seq<Field>): seq<Field> {
    if fields == [] || Leq(f.key, fields[0].key) then [f] + fields else [fields[0]] + Insert(f, fields[1..])
  }

  /** sort_keys=True at one level. */
  function Sorted(fields: seq<Field>): seq<Field> {
    if fields == [] then [] else Insert(fields[0], Sorted(fields[1..]))
  }

  /** sort_keys=True at every level. */
  function Canon(v: Json): Json
    decreases v, 0
  {
    match v
    case JArr(items) => JArr(CanonItems(items))
    case JObj(fields) => JObj(Sorted(CanonFields(fields)))
    case _ => v
  }

  function CanonItems(items: seq<Json>): seq<Json>
    decreases items, 1
  {
    if items == [] then [] else [Canon(items[0])] + CanonItems(items[1..])
  }

  function CanonFields(fields: seq<Field>): seq<Field>
    decreases fields, 1
  {
    if fields == [] then [] else [Field(fields[0].key, Canon(fields[0].value))] + CanonFields(fields[1..])
  }

  function CanonicalArguments(arguments: Json): string {
    Dumps(Canon(arguments), true)
  }

  /** The text both sides feed to the MAC: "{action_id}:{tool}:{canonical arguments}:{expires}". */
  function Message(actionId: string, tool: string, arguments: Json, expires: string): string {
    actionId + ([':'] + (tool + ([':'] + Write(Canon(arguments), true, [':'] + expires))))
  }

  predicate ColonFree(s: string) {
    forall i :: 0 <= i < |s| ==> s[i] != ':'
  }

  lemma UpToColon(a: string, b: string, x: string, y: string)
    requires ColonFree(a) && ColonFree(b) && a + ([':'] + x) == b + ([':'] + y)
    ensures a == b && x == y
  {
    var u, v := a + ([':'] + x), b + ([':'] + y);
    assert forall i :: 0 <= i < |a| ==> u[i] == a[i];
    assert forall i :: 0 <= i < |b| ==> v[i] == b[i];
    assert u[|a|] == ':' && v[|b|] == ':';
    CancelLeft(a, b, [':'] + x, [':'] + y);
    CancelLeft([':'], [':'], x, y);
  }

  /** A signed message names one action, one tool, one canonical argument text and one expiry.
      Nothing is asked of the expiry: the argument text ends itself. */
  lemma MessageDecodesUniquely(i: string, t: string, a: Json, e: string, i': string, t': string, a': Json, e': string)
    requires ColonFree(i) && ColonFree(t) && ColonFree(i') && ColonFree(t')
    requires Message(i, t, a, e) == Message(i', t', a', e')
    ensures i == i' && t == t' && Canon(a) == Canon(a') && e == e'
  {
    var u, v := Write(Canon(a), true, [':'] + e), Write(Canon(a'), true, [':'] + e');
    UpToColon(i, i', t + ([':'] + u), t' + ([':'] + v));
    UpToColon(t, t', u, v);
    WritePrefix(Canon(a), Canon(a'), true, [':'] + e, [':'] + e');
    CancelLeft([':'], [':'], e, e');
  }

  /** Why the action id must be free of colons: otherwise two calls share a message. */
  lemma ColonInActionIdConfuses(a: Json, e: string)
    ensures Message("x:y", "z", a, e) == Message("x", "y:z", a, e)
  {
    var w := [':'] + Write(Canon(a), true, [':'] + e);
    assert "x:y" + ([':'] + ("z" + w)) == "x:y:z" + w == "x" + ([':'] + ("y:z" + w));
  }

  /** Canonical text is injective up to key order. */
  lemma CanonicalTextInjective(v: Json, w: Json)
    ensures CanonicalArguments(v) == CanonicalArguments(w) <==> Canon(v) == Canon(w)
  {
    if CanonicalArguments(v) == CanonicalArguments(w) {
      WritePrefix(Canon(v), Canon(w), true, [], []);
    }
  }

  // --- Sorting keeps every lookup, and forgets the order ---

  lemma {:induction false} InsertGet(f: Field, fields: seq<Field>, k: string)
    ensures Has(Insert(f, fields), k) == (k == f.key || Has(fields, k))
    ensures Has(Insert(f, fields), k) ==> Get(Insert(f, fields), k) == if k == f.key then f.value else Get(fields, k)
  {
    LeqReflexive(f.key);
    if fields == [] || Leq(f.key, fields[0].key) {
      assert Insert(f, fields)[1..] == fields;
    } else {
      InsertGet(f, fields[1..], k);
      assert Insert(f, fields)[1..] == Insert(f, fields[1..]);
    }
  }

  lemma {:induction false} SortedCanonGet(fields: seq<Field>, k: string)
    ensures Has(Sorted(CanonFields(fields)), k) == Has(fields, k)
    ensures Has(fields, k) ==> Get(Sorted(CanonFields(fields)), k) == Canon(Get(fields, k))
  {
    if fields != [] {
      var f := Field(fields[0].key, Canon(fields[0].value));
      assert CanonFields(fields)[1..] == CanonFields(fields[1..]);
      SortedCanonGet(fields[1..], k);
      InsertGet(f, Sorted(CanonFields(fields[1..])), k);
    }
  }

  /** Objects with the same canonical text agree on every key. */
  lemma SameTextSameLookups(a: seq<Field>, b: seq<Field>, k: string)
    requires CanonicalArguments(JObj(a)) == CanonicalArguments(JObj(b))
    ensures Has(a, k) == Has(b, k)
    ensures Has(a, k) ==> Canon(Get(a, k)) == Canon(Get(b, k))
  {
    CanonicalTextInjective(JObj(a), JObj(b));
    SortedCanonGet(a, k);
    SortedCanonGet(b, k);
  }

  lemma {:induction false} LeqReflexive(a: string)
    ensures Leq(a, a)
  {
    if a != [] { LeqReflexive(a[1..]); }
  }

  lemma {:induction false} LeqTotal(a: string, b: string)
    ensures Leq(a, b) || Leq(b, a)
    ensures Leq(a, b) && Leq(b, a) ==> a == b
  {
    if a != [] && b != [] && a[0] == b[0] {
      LeqTotal(a[1..], b[1..]);
      assert a == [a[0]] + a[1..] && b == [b[0]] + b[1..];
    }
  }

  lemma {:induction false} LeqTransitive(a: string, b: string, c: string)
    requires Leq(a, b) && Leq(b, c)
    ensures Leq(a, c)
  {
    if a != [] && a[0] == b[0] == c[0] { LeqTransitive(a[1..], b[1..], c[1..]); }
  }

  lemma {:induction false} InsertCommutes(f: Field, g: Field, fields: seq<Field>)
    requires f.key != g.key
    ensures Insert(f, Insert(g, fields)) == Insert(g, Insert(f, fields))
  {
    LeqTotal(f.key, g.key);
    if fields != [] {
      var h := fields[0];
      if Leq(f.key, g.key) && Leq(g.key, h.key) { LeqTransitive(f.key, g.key, h.key); }
      if Leq(g.key, f.key) && Leq(f.key, h.key) { LeqTransitive(g.key, f.key, h.key); }
      if !Leq(f.key, h.key) && !Leq(g.key, h.key) {
        InsertCommutes(f, g, fields[1..]);
        assert Insert(f, fields)[1..] == Insert(f, fields[1..]) && Insert(g, fields)[1..] == Insert(g, fields[1..]);
      } else {
        LeqTotal(f.key, h.key);
        LeqTotal(g.key, h.key);
        assert ([f] + fields)[1..] == fields && ([g] + fields)[1..] == fields;
        assert Insert(f, fields)[1..] == if Leq(f.key, h.key) then fields else Insert(f, fields[1..]);
        assert Insert(g, fields)[1..] == if Leq(g.key, h.key) then fields else Insert(g, fields[1..]);
      }
    } else {
      assert [f][1..] == [] && [g][1..] == [];
    }
  }

  function Without<T>(s: seq<T>, i: nat): seq<T>
    requires i < |s|
  {
    s[..i] + s[i + 1..]
  }

  lemma {:induction false} SortedFrom(fields: seq<Field>, i: nat)
    requires i < |fields| && UniqueKeys(fields)
    ensures Sorted(fields) == Insert(fields[i], Sorted(Without(fields, i)))
  {
    if i == 0 {
      assert Without(fields, 0) == fields[1..];
    } else {
      var rest := Without(fields, i);
      SortedFrom(fields[1..], i - 1);
      assert Without(fields[1..], i - 1) == rest[1..];
      InsertCommutes(fields[0], fields[i], Sorted(rest[1..]));
    }
  }

  lemma MultisetWithout<T>(s: seq<T>, i: nat)
    requires i < |s|
    ensures multiset(s) == multiset{s[i]} + multiset(Without(s, i))
  {
    assert s == s[..i] + ([s[i]] + s[i + 1..]);
  }

  lemma Match<T>(a: seq<T>, b: seq<T>) returns (i: nat)
    requires a != [] && multiset(a) == multiset(b)
    ensures i < |b| && b[i] == a[0] && multiset(Without(b, i)) == multiset(a[1..])
  {
    assert a[0] in multiset(b);
    i :| 0 <= i < |b| && b[i] == a[0];
    MultisetWithout(a, 0);
    MultisetWithout(b, i);
    assert Without(a, 0) == a[1..];
    assert multiset(Without(b, i)) == multiset(b) - multiset{a[0]} == multiset(a[1..]);
  }

  lemma WithoutUnique(b: seq<Field>, i: nat)
    requires i < |b| && UniqueKeys(b)
    ensures UniqueKeys(Without(b, i))
  {
    forall j, k | 0 <= j < k < |Without(b, i)| ensures Without(b, i)[j].key != Without(b, i)[k].key {
      assert b[if j < i then j else j + 1].key != b[if k < i then k else k + 1].key;
    }
  }

  /** Two objects with the same fields in any order have the same canonical order. */
  lemma {:induction false} SortedIgnoresOrder(a: seq<Field>, b: seq<Field>)
    requires UniqueKeys(a) && UniqueKeys(b) && multiset(a) == multiset(b)
    ensures Sorted(a) == Sorted(b)
  {
    if a == [] {
      assert |b| == |multiset(b)| == |multiset(a)|;
      assert b == [];
    } else {
      var i := Match(a, b);
      WithoutUnique(b, i);
      SortedIgnoresOrder(a[1..], Without(b, i));
      SortedFrom(b, i);
    }
  }

  /** The backend signs the arguments it stored; the gateway recomputes the text from the object it
      parsed. Whatever order that object has, the texts are the same. */
  lemma CanonicalIgnoresOrder(a: seq<Field>, b: seq<Field>)
    requires UniqueKeys(a) && UniqueKeys(b) && multiset(a) == multiset(b)
    ensures CanonicalArguments(JObj(a)) == CanonicalArguments(JObj(b))
    ensures forall i: string, t: string, e: string :: Message(i, t, JObj(a), e) == Message(i, t, JObj(b), e)
  {
    CanonFieldsAt(a);
    CanonFieldsAt(b);
    CanonMultiset(a, b);
    SortedIgnoresOrder(CanonFields(a), CanonFields(b));
  }

  lemma {:induction false} CanonFieldsAt(a: seq<Field>)
    ensures |CanonFields(a)| == |a|
    ensures forall i :: 0 <= i < |a| ==> CanonFields(a)[i] == Field(a[i].key, Canon(a[i].value))
  {
    if a != [] { CanonFieldsAt(a[1..]); }
  }

  lemma {:induction false} CanonMultiset(a: seq<Field>, b: seq<Field>)
    requires multiset(a) == multiset(b)
    ensures multiset(CanonFields(a)) == multiset(CanonFields(b))
  {
    if a == [] {
      assert |b| == |multiset(b)| == |multiset(a)|;
      assert b == [];
    } else {
      var i := Match(a, b);
      CanonMultiset(a[1..], Without(b, i));
      CanonWithout(b, i);
    }
  }

  lemma CanonWithout(b: seq<Field>, i: nat)
    requires i < |b|
    ensures multiset(CanonFields(b)) == multiset{Field(b[i].key, Canon(b[i].value))}
      + multiset(CanonFields(Without(b, i)))
  {
    CanonFieldsAt(b);
    MultisetWithout(CanonFields(b), i);
    CanonFieldsWithout(b, i);
  }

  lemma {:induction false} CanonFieldsWithout(b: seq<Field>, i: nat)
    requires i < |b|
    ensures i < |CanonFields(b)| && CanonFields(Without(b, i)) == Without(CanonFields(b), i)
  {
    CanonFieldsAt(b);
    if i == 0 {
      assert Without(b, 0) == b[1..] && Without(CanonFields(b), 0) == CanonFields(b)[1..];
    } else {
      CanonFieldsWithout(b[1..], i - 1);
      WithoutLater(b, i);
      WithoutLater(CanonFields(b), i);
    }
  }

  lemma WithoutLater<T>(s: seq<T>, i: nat)
    requires 1 <= i < |s|
    ensures Without(s, i) == [s[0]] + Without(s[1..], i - 1) && Without(s, i)[1..] == Without(s[1..], i - 1)
  {
    assert Without(s, i) == [s[0]] + Without(s[1..], i - 1);
  }

  // --- Canonical values are equal exactly when the values are, as Python compares them ---

  /** Every object in the value is a dictionary: it names each key once. */
  predicate Dictionary(v: Json) {
    match v
    case JArr(items) => forall i | 0 <= i < |items| :: Dictionary(items[i])
    case JObj(fields) => UniqueKeys(fields) && forall i | 0 <= i < |fields| :: Dictionary(fields[i].value)
    case _ => true
  }

  /** Equal as dictionaries and lists: the order of keys does not matter, the order of items does. */
  predicate Equal(v: Json, w: Json)
    decreases v
  {
    match v
    case JArr(items) =>
      w.JArr? && |w.items| == |items| && forall i | 0 <= i < |items| :: Equal(items[i], w.items[i])
    case JObj(fields) =>
      && w.JObj? && |w.fields| == |fields|
      && forall i | 0 <= i < |fields| ::
           Has(w.fields, fields[i].key) && Equal(fields[i].value, Get(w.fields, fields[i].key))
    case _ => v == w
  }

  lemma {:induction false} CanonExactly(v: Json, w: Json)
    requires Dictionary(v) && Dictionary(w)
    ensures Canon(v) == Canon(w) <==> Equal(v, w)
    decreases v
  {
    match v
    case JArr(items) =>
      CanonItemsAt(items);
      if w.JArr? {
        CanonItemsAt(w.items);
        if |items| == |w.items| {
          forall i | 0 <= i < |items| ensures Canon(items[i]) == Canon(w.items[i]) <==> Equal(items[i], w.items[i]) {
            CanonExactly(items[i], w.items[i]);
          }
        }
        if Canon(v) == Canon(w) {
          forall i | 0 <= i < |items| ensures Equal(items[i], w.items[i]) {
            assert CanonItems(items)[i] == CanonItems(w.items)[i];
          }
        }
      }
    case JObj(fields) =>
      if w.JObj? {
        if Canon(v) == Canon(w) { CanonFieldsEqual(fields, w.fields); }
        if Equal(v, w) { EqualFieldsCanon(fields, w.fields); }
      }
    case _ =>
  }

  lemma {:induction false} CanonItemsAt(items: seq<Json>)
    ensures |CanonItems(items)| == |items|
    ensures forall i :: 0 <= i < |items| ==> CanonItems(items)[i] == Canon(items[i])
  {
    if items != [] { CanonItemsAt(items[1..]); }
  }

  lemma {:induction false} SortedLength(fields: seq<Field>)
    ensures |Sorted(fields)| == |fields|
  {
    if fields != [] {
      SortedLength(fields[1..]);
      InsertLength(fields[0], Sorted(fields[1..]));
    }
  }

  lemma {:induction false} InsertLength(f: Field, fields: seq<Field>)
    ensures |Insert(f, fields)| == |fields| + 1
  {
    if fields != [] { InsertLength(f, fields[1..]); }
  }

  lemma GetAt(fields: seq<Field>, i: nat)
    requires UniqueKeys(fields) && i < |fields|
    ensures Has(fields, fields[i].key) && Get(fields, fields[i].key) == fields[i].value
  {
    var j := IndexOf(fields, fields[i].key);
    assert j <= i;
  }

  lemma {:induction false} CanonFieldsEqual(a: seq<Field>, b: seq<Field>)
    requires Dictionary(JObj(a)) && Dictionary(JObj(b)) && Canon(JObj(a)) == Canon(JObj(b))
    ensures Equal(JObj(a), JObj(b))
    decreases a, 0
  {
    SortedLength(CanonFields(a));
    SortedLength(CanonFields(b));
    CanonFieldsAt(a);
    CanonFieldsAt(b);
    forall i | 0 <= i < |a| ensures Has(b, a[i].key) && Equal(a[i].value, Get(b, a[i].key)) {
      GetAt(a, i);
      SortedCanonGet(a, a[i].key);
      SortedCanonGet(b, a[i].key);
      CanonExactly(a[i].value, Get(b, a[i].key));
    }
  }

  lemma {:induction false} EqualFieldsCanon(a: seq<Field>, b: seq<Field>)
    requires Dictionary(JObj(a)) && Dictionary(JObj(b)) && Equal(JObj(a), JObj(b))
    ensures Canon(JObj(a)) == Canon(JObj(b))
    decreases a, 0
  {
    CanonFieldsAt(a);
    CanonFieldsAt(b);
    forall i | 0 <= i < |a| ensures CanonFields(a)[i] in CanonFields(b) {
      CanonExactly(a[i].value, Get(b, a[i].key));
      assert CanonFields(b)[IndexOf(b, a[i].key)] == CanonFields(a)[i];
    }
    SameFields(CanonFields(a), CanonFields(b));
    SortedIgnoresOrder(CanonFields(a), CanonFields(b));
  }

  /** Unique keys, the same number of fields, and one within the other: the same fields. */
  lemma {:induction false} SameFields(a: seq<Field>, b: seq<Field>)
    requires UniqueKeys(a) && UniqueKeys(b) && |a| == |b|
    requires forall i :: 0 <= i < |a| ==> a[i] in b
    ensures multiset(a) == multiset(b)
  {
    if a != [] {
      assert a[0] in b;
      var i :| 0 <= i < |b| && b[i] == a[0];
      WithoutUnique(b, i);
      forall j | 0 <= j < |a[1..]| ensures a[1..][j] in Without(b, i) {
        assert a[j + 1] in b && a[j + 1].key != a[0].key;
        var k :| 0 <= k < |b| && b[k] == a[j + 1];
        assert Without(b, i)[if k < i then k else k - 1] == b[k];
      }
      SameFields(a[1..], Without(b, i));
      MultisetWithout(b, i);
      assert a == [a[0]] + a[1..];
    } else {
      assert b == [];
    }
  }

  /** The canonical texts of two values are equal exactly when Python finds the values equal. */
  lemma CanonicalTextExactly(v: Json, w: Json)
    requires Dictionary(v) && Dictionary(w)
    ensures CanonicalArguments(v) == CanonicalArguments(w) <==> Equal(v, w)
  {
    CanonicalTextInjective(v, w);
    CanonExactly(v, w);
  }
}
