/** Serialized size: how long the JSON text of a value is, and why it adds up. */
module JsonSize {
  import opened JsonValues
  import opened JsonText

  /** size(value): the length of the text, with only the escapes that RFC 8259 requires. */
  function Size(v: Json): nat {
    |Dumps(v, false)|
  }

  function CharCost(c: char): nat {
    if ShortEscape(c) != '\0' then 2 else if IsPlain(c, false) then 1 else 6
  }

  /** The length of a string between its quotes. */
  function Escaped(s: string): (n: nat)
    ensures n >= |s|
  {
    if s == [] then 0 else CharCost(s[0]) + Escaped(s[1..])
  }

  /** How many characters escaping adds. */
  function Overhead(s: string): nat {
    Escaped(s) - |s|
  }

  lemma {:induction false} WriteTailLength(s: string, rest: string)
    ensures |WriteTail(s, false, rest)| == Escaped(s) + 1 + |rest|
  {
    if s != [] { WriteTailLength(s[1..], rest); }
  }

  lemma {:induction false} WriteLength(v: Json, rest: string)
    ensures |Write(v, false, rest)| == Size(v) + |rest|
    decreases v, 0
  {
    match v {
      case JStr(s) => WriteTailLength(s, rest); WriteTailLength(s, []);
      case JArr(items) =>
        if items != [] {
          var after := WriteItems(items[1..], false, rest);
          var alone := WriteItems(items[1..], false, []);
          WriteLength(items[0], after);
          WriteLength(items[0], alone);
          WriteItemsLength(items[1..], rest);
        }
      case JObj(fields) =>
        if fields != [] {
          WriteFieldLength(fields[0], WriteFields(fields[1..], false, rest));
          WriteFieldLength(fields[0], WriteFields(fields[1..], false, []));
          WriteFieldsLength(fields[1..], rest);
        }
      case _ =>
    }
  }

  lemma {:induction false} WriteItemsLength(items: seq<Json>, rest: string)
    ensures |WriteItems(items, false, rest)| == |WriteItems(items, false, [])| + |rest|
    decreases items, 1
  {
    if items != [] {
      WriteLength(items[0], WriteItems(items[1..], false, rest));
      WriteLength(items[0], WriteItems(items[1..], false, []));
      WriteItemsLength(items[1..], rest);
    }
  }

  function FieldSize(f: Field): nat {
    3 + Escaped(f.key) + Size(f.value)
  }

  lemma {:induction false} WriteFieldLength(f: Field, rest: string)
    ensures |WriteField(f, false, rest)| == FieldSize(f) + |rest|
    decreases f, 1
  {
    WriteLength(f.value, rest);
    WriteTailLength(f.key, [':'] + Write(f.value, false, rest));
  }

  lemma {:induction false} WriteFieldsLength(fields: seq<Field>, rest: string)
    ensures |WriteFields(fields, false, rest)| == |WriteFields(fields, false, [])| + |rest|
    decreases fields, 1
  {
    if fields != [] {
      WriteFieldLength(fields[0], WriteFields(fields[1..], false, rest));
      WriteFieldLength(fields[0], WriteFields(fields[1..], false, []));
      WriteFieldsLength(fields[1..], rest);
    }
  }

  /** Each field with the comma or brace before it. */
  function FieldsSize(fields: seq<Field>): nat {
    if fields == [] then 0 else 1 + FieldSize(fields[0]) + FieldsSize(fields[1..])
  }

  function ItemsSize(items: seq<Json>): nat {
    if items == [] then 0 else 1 + Size(items[0]) + ItemsSize(items[1..])
  }

  lemma {:induction false} RestOfFieldsSize(fields: seq<Field>)
    ensures |WriteFields(fields, false, [])| == 1 + FieldsSize(fields)
  {
    if fields != [] {
      WriteFieldLength(fields[0], WriteFields(fields[1..], false, []));
      RestOfFieldsSize(fields[1..]);
    }
  }

  lemma {:induction false} RestOfItemsSize(items: seq<Json>)
    ensures |WriteItems(items, false, [])| == 1 + ItemsSize(items)
  {
    if items != [] {
      WriteLength(items[0], WriteItems(items[1..], false, []));
      RestOfItemsSize(items[1..]);
    }
  }

  /** The size of an object is the sum of its fields' sizes and its punctuation. */
  lemma ObjectSize(fields: seq<Field>)
    ensures Size(JObj(fields)) == if fields == [] then 2 else 1 + FieldsSize(fields)
  {
    if fields != [] {
      WriteFieldLength(fields[0], WriteFields(fields[1..], false, []));
      RestOfFieldsSize(fields[1..]);
    }
  }

  lemma ArraySize(items: seq<Json>)
    ensures Size(JArr(items)) == if items == [] then 2 else 1 + ItemsSize(items)
  {
    if items != [] {
      WriteLength(items[0], WriteItems(items[1..], false, []));
      RestOfItemsSize(items[1..]);
    }
  }

  lemma StringSize(s: string)
    ensures Size(JStr(s)) == 2 + Escaped(s)
  {
    WriteTailLength(s, []);
  }

  /** Replacing one value inside an object changes its size by exactly the difference. */
  lemma {:induction false} ReplacedFieldSize(fields: seq<Field>, i: nat, value: Json)
    requires i < |fields|
    ensures FieldsSize(fields[i := Field(fields[i].key, value)]) + Size(fields[i].value) == FieldsSize(fields)
      + Size(value)
  {
    var fields' := fields[i := Field(fields[i].key, value)];
    if i > 0 {
      ReplacedFieldSize(fields[1..], i - 1, value);
      assert fields'[1..] == fields[1..][i - 1 := Field(fields[i].key, value)];
    } else {
      assert fields'[1..] == fields[1..];
    }
  }

  lemma {:induction false} EscapedConcat(s: string, t: string)
    ensures Escaped(s + t) == Escaped(s) + Escaped(t)
  {
    if s == [] {
      assert s + t == t;
    } else {
      assert (s + t)[1..] == s[1..] + t;
      EscapedConcat(s[1..], t);
    }
  }

  /** A prefix needs no more escapes than the whole text. */
  lemma PrefixOverhead(s: string, n: nat)
    requires n <= |s|
    ensures Overhead(s[..n]) <= Overhead(s)
  {
    assert s == s[..n] + s[n..];
    EscapedConcat(s[..n], s[n..]);
  }
}
