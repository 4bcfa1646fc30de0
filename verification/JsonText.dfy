/** The JSON text that Python's json.dumps(value, separators=(',', ':')) writes, and the proof that
    it can be read back in only one way.

    With `ascii` every character outside the printable ASCII range is written as a \u escape
    (the form that is signed); without it only what section 7 of RFC 8259 requires is escaped
    (the form whose length is budgeted). Writers take the text that follows, so that no proof
    has to re-associate concatenations. */
module JsonText {
  import opened JsonValues

  function HexDigit(d: nat): char
    requires d < 16
  {
    "0123456789abcdef"[d]
  }

  function Hex2(n: nat): (s: string)
    requires n < 256
    ensures |s| == 2
  {
    [HexDigit(n / 16), HexDigit(n % 16)]
  }

  function Hex4(n: nat): (s: string)
    requires n < 0x1_0000
    ensures |s| == 4
  {
    Hex2(n / 256) + Hex2(n % 256)
  }

  /** \uXXXX for one UTF-16 code unit. */
  function CodeUnit(n: nat): (s: string)
    requires n < 0x1_0000
    ensures |s| == 6 && s[0] == '\\' && s[1] == 'u'
  {
    ['\\', 'u'] + Hex4(n)
  }

  /** A Unicode scalar value as one code unit, or as a surrogate pair. */
  function WriteUnicode(n: nat, rest: string): string
    requires n < 0x11_0000
  {
    if n < 0x1_0000 then CodeUnit(n) + rest
    else CodeUnit(0xD800 + (n - 0x1_0000) / 1024) + (CodeUnit(0xDC00 + (n - 0x1_0000) % 1024) + rest)
  }

  /** The letter after the backslash of a two-character escape, or 0 when the character has none. */
  function ShortEscape(c: char): char {
    if c == '"' then '"'
    else if c == '\\' then '\\'
    else if c == '\n' then 'n'
    else if c == '\r' then 'r'
    else if c == '\t' then 't'
    else if c as int == 8 then 'b'
    else if c as int == 12 then 'f'
    else '\0'
  }

  predicate IsPlain(c: char, ascii: bool) {
    ShortEscape(c) == '\0' && 32 <= c as int && (ascii ==> c as int <= 126)
  }

  function WriteChar(c: char, ascii: bool, rest: string): (s: string)
    ensures s != [] && s[0] != '"'
  {
    if ShortEscape(c) != '\0' then ['\\', ShortEscape(c)] + rest
    else if IsPlain(c, ascii) then [c] + rest
    else WriteUnicode(c as int, rest)
  }

  /** `s` escaped, with its closing quote, followed by `rest`. */
  function WriteTail(s: string, ascii: bool, rest: string): (r: string)
    ensures r != []
  {
    if s == [] then ['"'] + rest else WriteChar(s[0], ascii, WriteTail(s[1..], ascii, rest))
  }

  function WriteString(s: string, ascii: bool, rest: string): string {
    ['"'] + WriteTail(s, ascii, rest)
  }

  function Digits(n: nat): (s: string)
    ensures s != []
  {
    if n < 10 then [DigitChar(n)] else Digits(n / 10) + [DigitChar(n % 10)]
  }

  function DigitChar(d: nat): (c: char)
    requires d < 10
    ensures c as int == '0' as int + d
  {
    ('0' as int + d) as char
  }

  function WriteInt(n: int, rest: string): string {
    if n < 0 then ['-'] + (Digits(-n) + rest) else Digits(n) + rest
  }

  /** The text of `v` followed by `rest`. */
  function Write(v: Json, ascii: bool, rest: string): string
    decreases v, 0
  {
    match v
    case JNull => "null" + rest
    case JBool(b) => (if b then "true" else "false") + rest
    case JInt(n) => WriteInt(n, rest)
    case JStr(s) => WriteString(s, ascii, rest)
    case JArr(items) =>
      ['['] + (if items == [] then [']'] + rest else Write(items[0], ascii, WriteItems(items[1..], ascii, rest)))
    case JObj(fields) =>
      ['{'] + (if fields == [] then ['}'] + rest
               else WriteField(fields[0], ascii, WriteFields(fields[1..], ascii, rest)))
  }

  function WriteField(f: Field, ascii: bool, rest: string): string
    decreases f, 0
  {
    WriteString(f.key, ascii, [':'] + Write(f.value, ascii, rest))
  }

  /** The items after the first one of an array, with the closing bracket, followed by `rest`. */
  function WriteItems(items: seq<Json>, ascii: bool, rest: string): (s: string)
    decreases items, 1
    ensures s != []
  {
    if items == [] then [']'] + rest else [','] + Write(items[0], ascii, WriteItems(items[1..], ascii, rest))
  }

  /** The fields after the first one of an object, with the closing brace, followed by `rest`. */
  function WriteFields(fields: seq<Field>, ascii: bool, rest: string): (s: string)
    decreases fields, 1
    ensures s != []
  {
    if fields == [] then ['}'] + rest else [','] + WriteField(fields[0], ascii, WriteFields(fields[1..], ascii, rest))
  }

  function Dumps(v: Json, ascii: bool): string {
    Write(v, ascii, [])
  }

  // --- A text and what follows it ---

  lemma CharThenRest(c: char, ascii: bool, x: string, y: string)
    ensures WriteChar(c, ascii, x + y) == WriteChar(c, ascii, x) + y
  {
    if ShortEscape(c) != '\0' {
      assert ['\\', ShortEscape(c)] + (x + y) == (['\\', ShortEscape(c)] + x) + y;
    } else if IsPlain(c, ascii) {
      assert [c] + (x + y) == ([c] + x) + y;
    } else {
      UnicodeThenRest(c as int, x, y);
    }
  }

  lemma UnicodeThenRest(n: nat, x: string, y: string)
    requires n < 0x11_0000
    ensures WriteUnicode(n, x + y) == WriteUnicode(n, x) + y
  {
    if n < 0x1_0000 {
      UnitThenRest(n, x, y);
    } else {
      var low := 0xDC00 + (n - 0x1_0000) % 1024;
      UnitThenRest(low, x, y);
      UnitThenRest(0xD800 + (n - 0x1_0000) / 1024, CodeUnit(low) + x, y);
    }
  }

  lemma UnitThenRest(n: nat, x: string, y: string)
    requires n < 0x1_0000
    ensures CodeUnit(n) + (x + y) == (CodeUnit(n) + x) + y
  {
  }

  lemma {:induction false} TailThenRest(s: string, ascii: bool, x: string, y: string)
    ensures WriteTail(s, ascii, x + y) == WriteTail(s, ascii, x) + y
  {
    if s != [] {
      TailThenRest(s[1..], ascii, x, y);
      CharThenRest(s[0], ascii, WriteTail(s[1..], ascii, x), y);
    } else {
      assert ['"'] + (x + y) == (['"'] + x) + y;
    }
  }

  lemma StringThenRest(s: string, ascii: bool, x: string, y: string)
    ensures WriteString(s, ascii, x + y) == WriteString(s, ascii, x) + y
  {
    TailThenRest(s, ascii, x, y);
  }

  lemma {:induction false} ValueThenRest(v: Json, ascii: bool, x: string, y: string)
    ensures Write(v, ascii, x + y) == Write(v, ascii, x) + y
    decreases v, 1
  {
    match v
    case JNull => assert "null" + (x + y) == ("null" + x) + y;
    case JBool(b) =>
      var word := if b then "true" else "false";
      assert word + (x + y) == (word + x) + y;
    case JInt(n) => IntThenRest(n, x, y);
    case JStr(s) => StringThenRest(s, ascii, x, y);
    case JArr(items) =>
      if items == [] {
        assert ['['] + ([']'] + (x + y)) == (['['] + ([']'] + x)) + y;
      } else {
        ItemsThenRest(items[1..], ascii, x, y);
        ValueThenRest(items[0], ascii, WriteItems(items[1..], ascii, x), y);
      }
    case JObj(fields) =>
      if fields == [] {
        assert ['{'] + (['}'] + (x + y)) == (['{'] + (['}'] + x)) + y;
      } else {
        FieldsThenRest(fields[1..], ascii, x, y);
        FieldThenRest(fields[0], ascii, WriteFields(fields[1..], ascii, x), y);
      }
  }

  lemma IntThenRest(n: int, x: string, y: string)
    ensures WriteInt(n, x + y) == WriteInt(n, x) + y
  {
    var digits := Digits(if n < 0 then -n else n);
    assert digits + (x + y) == (digits + x) + y;
  }

  lemma {:induction false} ItemsThenRest(items: seq<Json>, ascii: bool, x: string, y: string)
    ensures WriteItems(items, ascii, x + y) == WriteItems(items, ascii, x) + y
    decreases items, 0
  {
    if items == [] {
      assert [']'] + (x + y) == ([']'] + x) + y;
    } else {
      ItemsThenRest(items[1..], ascii, x, y);
      ValueThenRest(items[0], ascii, WriteItems(items[1..], ascii, x), y);
    }
  }

  lemma {:induction false} FieldThenRest(f: Field, ascii: bool, x: string, y: string)
    ensures WriteField(f, ascii, x + y) == WriteField(f, ascii, x) + y
    decreases f, 2
  {
    ValueThenRest(f.value, ascii, x, y);
    StringThenRest(f.key, ascii, [':'] + Write(f.value, ascii, x), y);
    assert [':'] + (Write(f.value, ascii, x) + y) == ([':'] + Write(f.value, ascii, x)) + y;
  }

  lemma {:induction false} FieldsThenRest(fields: seq<Field>, ascii: bool, x: string, y: string)
    ensures WriteFields(fields, ascii, x + y) == WriteFields(fields, ascii, x) + y
    decreases fields, 0
  {
    if fields == [] {
      assert ['}'] + (x + y) == (['}'] + x) + y;
    } else {
      FieldsThenRest(fields[1..], ascii, x, y);
      FieldThenRest(fields[0], ascii, WriteFields(fields[1..], ascii, x), y);
    }
  }

  lemma WriteThenRest(v: Json, ascii: bool, rest: string)
    ensures Write(v, ascii, rest) == Dumps(v, ascii) + rest
  {
    ValueThenRest(v, ascii, [], rest);
    assert [] + rest == rest;
  }

  // --- Characters and strings are self-delimiting ---

  lemma CancelLeft(p: string, q: string, x: string, y: string)
    requires p + x == q + y && |p| == |q|
    ensures p == q && x == y
  {
    assert p == (p + x)[..|p|] && q == (q + y)[..|p|];
    assert x == (p + x)[|p|..] && y == (q + y)[|p|..];
  }

  lemma HexDigitInjective(d: nat, e: nat)
    requires d < 16 && e < 16 && HexDigit(d) == HexDigit(e)
    ensures d == e
  {
  }

  lemma Hex2Injective(m: nat, n: nat)
    requires m < 256 && n < 256 && Hex2(m) == Hex2(n)
    ensures m == n
  {
    assert Hex2(m)[0] == Hex2(n)[0] && Hex2(m)[1] == Hex2(n)[1];
    HexDigitInjective(m / 16, n / 16);
    HexDigitInjective(m % 16, n % 16);
  }

  lemma Hex4Injective(m: nat, n: nat)
    requires m < 0x1_0000 && n < 0x1_0000 && Hex4(m) == Hex4(n)
    ensures m == n
  {
    CancelLeft(Hex2(m / 256), Hex2(n / 256), Hex2(m % 256), Hex2(n % 256));
    Hex2Injective(m / 256, n / 256);
    Hex2Injective(m % 256, n % 256);
  }

  predicate IsScalar(n: nat) {
    n < 0x11_0000 && !(0xD800 <= n < 0xE000)
  }

  lemma CodeUnitInjective(m: nat, n: nat, x: string, y: string)
    requires m < 0x1_0000 && n < 0x1_0000 && CodeUnit(m) + x == CodeUnit(n) + y
    ensures m == n && x == y
  {
    CancelLeft(CodeUnit(m), CodeUnit(n), x, y);
    CancelLeft(['\\', 'u'], ['\\', 'u'], Hex4(m), Hex4(n));
    Hex4Injective(m, n);
  }

  lemma WriteUnicodePrefix(m: nat, n: nat, x: string, y: string)
    requires IsScalar(m) && IsScalar(n) && WriteUnicode(m, x) == WriteUnicode(n, y)
    ensures m == n && x == y
  {
    var hm := if m < 0x1_0000 then m else 0xD800 + (m - 0x1_0000) / 1024;
    var hn := if n < 0x1_0000 then n else 0xD800 + (n - 0x1_0000) / 1024;
    var lm, ln := 0xDC00 + (m - 0x1_0000) % 1024, 0xDC00 + (n - 0x1_0000) % 1024;
    CodeUnitInjective(hm, hn, if m < 0x1_0000 then x else CodeUnit(lm) + x, if n < 0x1_0000 then y
      else CodeUnit(ln) + y);
    if m >= 0x1_0000 { CodeUnitInjective(lm, ln, x, y); }
  }

  lemma ShortEscapeInjective(c: char, d: char)
    requires ShortEscape(c) != '\0' && ShortEscape(c) == ShortEscape(d)
    ensures c == d
  {
  }

  lemma WriteCharPrefix(c: char, d: char, ascii: bool, x: string, y: string)
    requires WriteChar(c, ascii, x) == WriteChar(d, ascii, y)
    ensures c == d && x == y
  {
    var a, b := WriteChar(c, ascii, x), WriteChar(d, ascii, y);
    assert a[0] == b[0];
    if a[0] != '\\' {
      CancelLeft([c], [d], x, y);
    } else {
      EscapeKind(c, ascii, x);
      EscapeKind(d, ascii, y);
      assert a[1] == b[1];
      if ShortEscape(c) != '\0' {
        CancelLeft(['\\', ShortEscape(c)], ['\\', ShortEscape(d)], x, y);
        ShortEscapeInjective(c, d);
      } else {
        WriteUnicodePrefix(c as int, d as int, x, y);
      }
    }
  }

  /** The letter after the backslash tells a short escape from a code unit. */
  lemma EscapeKind(c: char, ascii: bool, rest: string)
    requires WriteChar(c, ascii, rest)[0] == '\\'
    ensures var a := WriteChar(c, ascii, rest);
      |a| >= 2 && if ShortEscape(c) != '\0' then a[1] == ShortEscape(c) && a[1] != 'u'
        else a[1] == 'u' && a == WriteUnicode(c as int, rest)
  {
  }

  lemma {:induction false} WriteTailPrefix(s: string, t: string, ascii: bool, x: string, y: string)
    requires WriteTail(s, ascii, x) == WriteTail(t, ascii, y)
    ensures s == t && x == y
  {
    assert WriteTail(s, ascii, x)[0] == WriteTail(t, ascii, y)[0];
    if s != [] {
      WriteCharPrefix(s[0], t[0], ascii, WriteTail(s[1..], ascii, x), WriteTail(t[1..], ascii, y));
      WriteTailPrefix(s[1..], t[1..], ascii, x, y);
    } else {
      CancelLeft(['"'], ['"'], x, y);
    }
  }

  lemma WriteStringPrefix(s: string, t: string, ascii: bool, x: string, y: string)
    requires WriteString(s, ascii, x) == WriteString(t, ascii, y)
    ensures s == t && x == y
  {
    CancelLeft(['"'], ['"'], WriteTail(s, ascii, x), WriteTail(t, ascii, y));
    WriteTailPrefix(s, t, ascii, x, y);
  }

  // --- Numbers end where the next delimiter begins ---

  predicate IsDigit(c: char) {
    '0' <= c <= '9'
  }

  /** What may follow a value: nothing, or one of JSON's structural characters. */
  predicate Delimited(x: string) {
    x == [] || x[0] == ',' || x[0] == ']' || x[0] == '}' || x[0] == ':'
  }

  /** int(text) on a text of decimal digits; None on any other text. */
  function ParseNat(s: string): Option<nat> {
    if s == [] || !IsDigit(s[|s| - 1]) then None
    else
      var d: nat := s[|s| - 1] as int - '0' as int;
      if |s| == 1 then Some(d)
      else match ParseNat(s[..|s| - 1]) case None => None case Some(n) => Some(10 * n + d)
  }

  lemma {:induction false} ParseDigits(n: nat)
    ensures forall i :: 0 <= i < |Digits(n)| ==> IsDigit(Digits(n)[i])
    ensures ParseNat(Digits(n)) == Some(n)
  {
    if n >= 10 {
      ParseDigits(n / 10);
      assert Digits(n)[..|Digits(n)| - 1] == Digits(n / 10);
    }
  }

  function Zeros(z: nat): string {
    seq(z, _ => '0')
  }

  /** The texts that parse to a number are its decimal text behind any number of zeros, and no others. */
  lemma ParseNatExactly(s: string, n: nat)
    ensures ParseNat(s) == Some(n) <==> exists z: nat :: s == Zeros(z) + Digits(n)
  {
    if ParseNat(s) == Some(n) { var z := LeadingZeros(s, n); }
    forall z: nat | s == Zeros(z) + Digits(n) ensures ParseNat(s) == Some(n) { ParseZeros(z, n); }
  }

  lemma {:induction false} LeadingZeros(s: string, n: nat) returns (z: nat)
    requires ParseNat(s) == Some(n)
    ensures s == Zeros(z) + Digits(n)
  {
    var last := |s| - 1;
    LastDigit(s, n);
    if last == 0 {
      z := 0;
    } else {
      z := LeadingZeros(s[..last], n / 10);
      if n < 10 {
        assert Zeros(z) + Digits(0) == Zeros(z + 1);
        z := z + 1;
      }
      assert s == s[..last] + [s[last]];
    }
  }

  lemma LastDigit(s: string, n: nat)
    requires ParseNat(s) == Some(n)
    ensures |s| == 1 ==> s == Digits(n)
    ensures |s| > 1 ==> ParseNat(s[..|s| - 1]) == Some(n / 10)
    ensures s != [] && s[|s| - 1] == Digits(n)[|Digits(n)| - 1]
  {
    var d: nat := s[|s| - 1] as int - '0' as int;
    if |s| > 1 {
      var m := ParseNat(s[..|s| - 1]).value;
      assert n == 10 * m + d && n / 10 == m && n % 10 == d;
    }
  }

  lemma {:induction false} ParseOnlyZeros(z: nat)
    requires z > 0
    ensures ParseNat(Zeros(z)) == Some(0)
  {
    if z > 1 {
      ParseOnlyZeros(z - 1);
      assert Zeros(z)[..z - 1] == Zeros(z - 1);
    }
  }

  lemma {:induction false} ParseZeros(z: nat, n: nat)
    ensures ParseNat(Zeros(z) + Digits(n)) == Some(n)
  {
    if n >= 10 {
      ParseZeros(z, n / 10);
      ParseMore(Zeros(z) + Digits(n / 10), n / 10, n % 10);
      assert Zeros(z) + Digits(n) == Zeros(z) + Digits(n / 10) + [DigitChar(n % 10)];
    } else if z > 0 {
      ParseOnlyZeros(z);
      ParseMore(Zeros(z), 0, n);
    } else {
      assert Zeros(0) + Digits(n) == Digits(n);
      ParseDigits(n);
    }
  }

  lemma ParseMore(s: string, n: nat, d: nat)
    requires d < 10 && ParseNat(s) == Some(n)
    ensures ParseNat(s + [DigitChar(d)]) == Some(10 * n + d)
  {
    var t := s + [DigitChar(d)];
    assert t[..|t| - 1] == s;
  }

  lemma DigitsPrefix(m: nat, n: nat, x: string, y: string)
    requires Delimited(x) && Delimited(y) && Digits(m) + x == Digits(n) + y
    ensures m == n && x == y
  {
    var a, b := Digits(m), Digits(n);
    ParseDigits(m);
    ParseDigits(n);
    assert forall i :: 0 <= i < |a| ==> IsDigit((a + x)[i]);
    assert forall i :: 0 <= i < |b| ==> IsDigit((b + y)[i]);
    assert |a + x| == |a| || (a + x)[|a|] == x[0];
    assert |b + y| == |b| || (b + y)[|b|] == y[0];
    CancelLeft(a, b, x, y);
  }

  /** Only a negative number begins with a sign. */
  lemma SignShows(m: int, x: string)
    ensures WriteInt(m, x) != [] && (WriteInt(m, x)[0] == '-' <==> m < 0)
  {
    ParseDigits(if m < 0 then -m else m);
    if m >= 0 { assert IsDigit(Digits(m)[0]) && WriteInt(m, x)[0] == Digits(m)[0]; }
  }

  lemma WriteIntPrefix(m: int, n: int, x: string, y: string)
    requires Delimited(x) && Delimited(y) && WriteInt(m, x) == WriteInt(n, y)
    ensures m == n && x == y
  {
    SignShows(m, x);
    SignShows(n, y);
    if m < 0 {
      CancelLeft(['-'], ['-'], Digits(-m) + x, Digits(-n) + y);
      DigitsPrefix(-m, -n, x, y);
    } else {
      DigitsPrefix(m, n, x, y);
    }
  }

  // --- Every value is self-delimiting ---

  lemma FirstCharacter(v: Json, ascii: bool, rest: string)
    ensures Write(v, ascii, rest) != []
    ensures var c := Write(v, ascii, rest)[0];
      match v
      case JNull => c == 'n'
      case JBool(b) => c == if b then 't' else 'f'
      case JInt(_) => c == '-' || IsDigit(c)
      case JStr(_) => c == '"'
      case JArr(_) => c == '['
      case JObj(_) => c == '{'
  {
    if v.JInt? { ParseDigits(if v.n < 0 then -v.n else v.n); }
  }

  /** The text of a value can be read back in only one way, whatever follows it. */
  lemma {:induction false} WritePrefix(v: Json, w: Json, ascii: bool, x: string, y: string)
    requires Delimited(x) && Delimited(y) && Write(v, ascii, x) == Write(w, ascii, y)
    ensures v == w && x == y
    decreases v, 0
  {
    FirstCharacter(v, ascii, x);
    FirstCharacter(w, ascii, y);
    match v {
      case JNull => CancelLeft("null", "null", x, y);
      case JBool(b) => var t := if b then "true" else "false"; CancelLeft(t, t, x, y);
      case JInt(n) => WriteIntPrefix(n, w.n, x, y);
      case JStr(s) => WriteStringPrefix(s, w.s, ascii, x, y);
      case JArr(items) => ArrayPrefix(items, w.items, ascii, x, y);
      case JObj(fields) => ObjectPrefix(fields, w.fields, ascii, x, y);
    }
  }

  lemma {:induction false} ArrayPrefix(s: seq<Json>, t: seq<Json>, ascii: bool, x: string, y: string)
    requires Delimited(x) && Delimited(y) && Write(JArr(s), ascii, x) == Write(JArr(t), ascii, y)
    ensures s == t && x == y
    decreases s, 2
  {
    var a := if s == [] then [']'] + x else Write(s[0], ascii, WriteItems(s[1..], ascii, x));
    var b := if t == [] then [']'] + y else Write(t[0], ascii, WriteItems(t[1..], ascii, y));
    CancelLeft(['['], ['['], a, b);
    if s != [] { FirstCharacter(s[0], ascii, WriteItems(s[1..], ascii, x)); }
    if t != [] { FirstCharacter(t[0], ascii, WriteItems(t[1..], ascii, y)); }
    assert s == [] ==> a[0] == ']';
    assert t == [] ==> b[0] == ']';
    if s == [] {
      CancelLeft([']'], [']'], x, y);
    } else {
      WritePrefix(s[0], t[0], ascii, WriteItems(s[1..], ascii, x), WriteItems(t[1..], ascii, y));
      ItemsPrefix(s[1..], t[1..], ascii, x, y);
    }
  }

  lemma {:induction false} ItemsPrefix(s: seq<Json>, t: seq<Json>, ascii: bool, x: string, y: string)
    requires Delimited(x) && Delimited(y) && WriteItems(s, ascii, x) == WriteItems(t, ascii, y)
    ensures s == t && x == y
    decreases s, 1
  {
    assert WriteItems(s, ascii, x)[0] == WriteItems(t, ascii, y)[0];
    if s == [] {
      CancelLeft([']'], [']'], x, y);
    } else {
      var u, v := WriteItems(s[1..], ascii, x), WriteItems(t[1..], ascii, y);
      CancelLeft([','], [','], Write(s[0], ascii, u), Write(t[0], ascii, v));
      WritePrefix(s[0], t[0], ascii, u, v);
      ItemsPrefix(s[1..], t[1..], ascii, x, y);
    }
  }

  lemma {:induction false} FieldPrefix(f: Field, g: Field, ascii: bool, x: string, y: string)
    requires Delimited(x) && Delimited(y) && WriteField(f, ascii, x) == WriteField(g, ascii, y)
    ensures f == g && x == y
    decreases f, 1
  {
    var u, v := Write(f.value, ascii, x), Write(g.value, ascii, y);
    WriteStringPrefix(f.key, g.key, ascii, [':'] + u, [':'] + v);
    CancelLeft([':'], [':'], u, v);
    WritePrefix(f.value, g.value, ascii, x, y);
  }

  lemma {:induction false} ObjectPrefix(s: seq<Field>, t: seq<Field>, ascii: bool, x: string, y: string)
    requires Delimited(x) && Delimited(y) && Write(JObj(s), ascii, x) == Write(JObj(t), ascii, y)
    ensures s == t && x == y
    decreases s, 2
  {
    var a := if s == [] then ['}'] + x else WriteField(s[0], ascii, WriteFields(s[1..], ascii, x));
    var b := if t == [] then ['}'] + y else WriteField(t[0], ascii, WriteFields(t[1..], ascii, y));
    CancelLeft(['{'], ['{'], a, b);
    assert a[0] == if s == [] then '}' else '"';
    assert b[0] == if t == [] then '}' else '"';
    if s == [] {
      CancelLeft(['}'], ['}'], x, y);
    } else {
      FieldPrefix(s[0], t[0], ascii, WriteFields(s[1..], ascii, x), WriteFields(t[1..], ascii, y));
      FieldsPrefix(s[1..], t[1..], ascii, x, y);
    }
  }

  lemma {:induction false} FieldsPrefix(s: seq<Field>, t: seq<Field>, ascii: bool, x: string, y: string)
    requires Delimited(x) && Delimited(y) && WriteFields(s, ascii, x) == WriteFields(t, ascii, y)
    ensures s == t && x == y
    decreases s, 1
  {
    assert WriteFields(s, ascii, x)[0] == WriteFields(t, ascii, y)[0];
    if s == [] {
      CancelLeft(['}'], ['}'], x, y);
    } else {
      var u, v := WriteFields(s[1..], ascii, x), WriteFields(t[1..], ascii, y);
      CancelLeft([','], [','], WriteField(s[0], ascii, u), WriteField(t[0], ascii, v));
      FieldPrefix(s[0], t[0], ascii, u, v);
      FieldsPrefix(s[1..], t[1..], ascii, x, y);
    }
  }
}
