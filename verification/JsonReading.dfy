/** A reader of JSON texts by sections 3 to 7 of RFC 8259, without insignificant whitespace and fractions, and
    that it reads back whatever is written. */
module JsonReading {
  import opened JsonValues
  import opened JsonText
  import Canonical

  /** What was read, and the text that follows it. */
  datatype Reading<+T> = Reading(value: T, rest: string)

  // --- Strings ---

  function HexValue(c: char): Option<nat> {
    if '0' <= c <= '9' then Some(c as int - '0' as int)
    else if 'a' <= c <= 'f' then Some(c as int - 'a' as int + 10)
    else if 'A' <= c <= 'F' then Some(c as int - 'A' as int + 10)
    else None
  }

  /** The number of a text of hexadecimal digits. */
  function HexNumber(s: string): Option<nat> {
    if s == "" then Some(0)
    else
      match (HexNumber(s[..|s| - 1]), HexValue(s[|s| - 1]))
      case (Some(n), Some(d)) => Some(16 * n + d)
      case _ => None
  }

  /** Four hexadecimal digits: one UTF-16 code unit. */
  function ReadUnit(x: string): (r: Option<Reading<nat>>)
    ensures r.Some? ==> |r.value.rest| < |x|
  {
    if |x| < 4 then None
    else match HexNumber(x[..4]) case Some(n) => Some(Reading(n, x[4..])) case None => None
  }

  /** A code unit, or the two of a character outside the basic plane. */
  function ReadUnicode(x: string): (r: Option<Reading<char>>)
    ensures r.Some? ==> |r.value.rest| < |x|
  {
    match ReadUnit(x)
    case None => None
    case Some(Reading(n, rest)) =>
      if n < 0xD800 || 0xE000 <= n < 0x1_0000 then Some(Reading(n as char, rest))
      else if n < 0xDC00 && "\\u" <= rest then
        match ReadUnit(rest[2..])
        case Some(Reading(m, after)) =>
          if 0xDC00 <= m < 0xE000 then Some(Reading((0x1_0000 + (n - 0xD800) * 0x400 + (m - 0xDC00)) as char, after))
          else None
        case None => None
      else None
  }

  /** What follows a backslash. */
  function ReadEscape(x: string): (r: Option<Reading<char>>)
    ensures r.Some? ==> |r.value.rest| < |x|
  {
    if x == [] then None
    else match x[0]
      case '"' => Some(Reading('"', x[1..]))
      case '\\' => Some(Reading('\\', x[1..]))
      case '/' => Some(Reading('/', x[1..]))
      case 'b' => Some(Reading(8 as char, x[1..]))
      case 'f' => Some(Reading(12 as char, x[1..]))
      case 'n' => Some(Reading(10 as char, x[1..]))
      case 'r' => Some(Reading(13 as char, x[1..]))
      case 't' => Some(Reading(9 as char, x[1..]))
      case 'u' => ReadUnicode(x[1..])
      case _ => None
  }

  /** A character of a string: control characters, quotes and backslashes only stand escaped. */
  function ReadChar(x: string): (r: Option<Reading<char>>)
    ensures r.Some? ==> |r.value.rest| < |x|
  {
    if x == [] || x[0] as int < 32 || x[0] == '"' then None
    else if x[0] == '\\' then ReadEscape(x[1..])
    else Some(Reading(x[0], x[1..]))
  }

  /** The characters up to the closing quote. */
  function ReadTail(x: string): (r: Option<Reading<string>>)
    ensures r.Some? ==> |r.value.rest| < |x|
    decreases |x|
  {
    if x != [] && x[0] == '"' then Some(Reading("", x[1..]))
    else match ReadChar(x)
      case None => None
      case Some(Reading(c, rest)) =>
        match ReadTail(rest)
        case None => None
        case Some(Reading(s, after)) => Some(Reading([c] + s, after))
  }

  function ReadString(x: string): (r: Option<Reading<string>>)
    ensures r.Some? ==> |r.value.rest| < |x|
  {
    if x == [] || x[0] != '"' then None else ReadTail(x[1..])
  }

  // --- Numbers ---

  /** How many digits the text begins with. */
  function DigitRun(x: string): (n: nat)
    ensures n <= |x|
  {
    if x != [] && IsDigit(x[0]) then 1 + DigitRun(x[1..]) else 0
  }

  function ReadNumber(x: string): (r: Option<Reading<int>>)
    ensures r.Some? ==> |r.value.rest| < |x|
  {
    var negative := x != [] && x[0] == '-';
    var digits := if negative then x[1..] else x;
    var n := DigitRun(digits);
    match ParseNat(digits[..n])
    case None => None
    case Some(m) =>
      var magnitude: int := m;
      Some(Reading(if negative then -magnitude else magnitude, digits[n..]))
  }

  // --- Values ---

  function ReadValue(x: string): (r: Option<Reading<Json>>)
    ensures r.Some? ==> |r.value.rest| < |x|
    decreases |x|, 0
  {
    if "null" <= x then Some(Reading(JNull, x[4..]))
    else if "true" <= x then Some(Reading(JBool(true), x[4..]))
    else if "false" <= x then Some(Reading(JBool(false), x[5..]))
    else if x == [] then None
    else if x[0] == '"' then
      match ReadString(x) case Some(Reading(s, rest)) => Some(Reading(JStr(s), rest)) case None => None
    else if x[0] == '[' && |x| > 1 && x[1] == ']' then Some(Reading(JArr([]), x[2..]))
    else if x[0] == '[' then
      match ReadItems(x[1..]) case Some(Reading(items, rest)) => Some(Reading(JArr(items), rest)) case None => None
    else if x[0] == '{' && |x| > 1 && x[1] == '}' then Some(Reading(JObj([]), x[2..]))
    else if x[0] == '{' then
      match ReadFields(x[1..]) case Some(Reading(fields, rest)) => Some(Reading(JObj(fields), rest)) case None => None
    else
      match ReadNumber(x) case Some(Reading(n, rest)) => Some(Reading(JInt(n), rest)) case None => None
  }

  /** At least one value, with commas between them, and the closing bracket. */
  function ReadItems(x: string): (r: Option<Reading<seq<Json>>>)
    ensures r.Some? ==> |r.value.rest| < |x|
    decreases |x|, 1
  {
    match ReadValue(x)
    case None => None
    case Some(Reading(v, rest)) =>
      if rest != [] && rest[0] == ']' then Some(Reading([v], rest[1..]))
      else if rest != [] && rest[0] == ',' then
        match ReadItems(rest[1..]) case Some(Reading(more, after)) => Some(Reading([v] + more, after)) case None => None
      else None
  }

  function ReadField(x: string): (r: Option<Reading<Field>>)
    ensures r.Some? ==> |r.value.rest| < |x|
    decreases |x|, 1
  {
    match ReadString(x)
    case None => None
    case Some(Reading(key, rest)) =>
      if rest != [] && rest[0] == ':' then
        match ReadValue(rest[1..]) case Some(Reading(v, after)) => Some(Reading(Field(key, v), after)) case None => None
      else None
  }

  function ReadFields(x: string): (r: Option<Reading<seq<Field>>>)
    ensures r.Some? ==> |r.value.rest| < |x|
    decreases |x|, 2
  {
    match ReadField(x)
    case None => None
    case Some(Reading(f, rest)) =>
      if rest != [] && rest[0] == '}' then Some(Reading([f], rest[1..]))
      else if rest != [] && rest[0] == ',' then
        match ReadFields(rest[1..]) case Some(Reading(more, after)) => Some(Reading([f] + more, after))
          case None => None
      else None
  }

  // --- Reading back strings ---

  lemma HexStep(s: string, n: nat, d: nat)
    requires HexNumber(s) == Some(n) && d < 16
    ensures HexNumber(s + [HexDigit(d)]) == Some(16 * n + d)
  {
    assert (s + [HexDigit(d)])[..|s|] == s;
    HexDigitReads(d);
  }

  lemma HexDigitReads(d: nat)
    requires d < 16
    ensures HexValue(HexDigit(d)) == Some(d)
  {
  }

  lemma Hex2Step(s: string, n: nat, m: nat)
    requires HexNumber(s) == Some(n) && m < 256
    ensures HexNumber(s + Hex2(m)) == Some(256 * n + m)
  {
    HexStep(s, n, m / 16);
    HexStep(s + [HexDigit(m / 16)], 16 * n + m / 16, m % 16);
    assert s + Hex2(m) == s + [HexDigit(m / 16)] + [HexDigit(m % 16)];
  }

  lemma Hex2Reads(n: nat)
    requires n < 256
    ensures HexNumber(Hex2(n)) == Some(n)
  {
    Hex2Step("", 0, n);
    assert "" + Hex2(n) == Hex2(n);
  }

  lemma HexNumberOfHex4(n: nat)
    requires n < 0x1_0000
    ensures HexNumber(Hex4(n)) == Some(n)
  {
    Hex4Reads(n / 256, n % 256);
  }

  lemma Hex4Reads(m: nat, n: nat)
    requires m < 256 && n < 256
    ensures HexNumber(Hex2(m) + Hex2(n)) == Some(256 * m + n)
  {
    Hex2Reads(m);
    Hex2Step(Hex2(m), m, n);
  }

  lemma UnitReads(n: nat, rest: string)
    requires n < 0x1_0000
    ensures ReadUnit(Hex4(n) + rest) == Some(Reading(n, rest))
  {
    HexNumberOfHex4(n);
    assert (Hex4(n) + rest)[..4] == Hex4(n) && (Hex4(n) + rest)[4..] == rest;
  }

  lemma UnicodeReads(n: nat, rest: string)
    requires IsScalar(n)
    ensures ReadUnicode(WriteUnicode(n, rest)[2..]) == Some(Reading(n as char, rest))
  {
    if n < 0x1_0000 { BasicReads(n, rest); } else { FurtherReads(n, rest); }
  }

  lemma BasicReads(n: nat, rest: string)
    requires IsScalar(n) && n < 0x1_0000
    ensures ReadUnicode(WriteUnicode(n, rest)[2..]) == Some(Reading(n as char, rest))
  {
    UnitReads(n, rest);
    UnitAfterMark(n, rest);
  }

  lemma FurtherReads(n: nat, rest: string)
    requires 0x1_0000 <= n < 0x11_0000
    ensures ReadUnicode(WriteUnicode(n, rest)[2..]) == Some(Reading(n as char, rest))
  {
    var high, low := (n - 0x1_0000) / 1024, (n - 0x1_0000) % 1024;
    UnitAfterMark(0xD800 + high, CodeUnit(0xDC00 + low) + rest);
    PairReads(0xD800 + high, 0xDC00 + low, rest);
    assert 0x1_0000 + high * 0x400 + low == n;
  }

  lemma UnitAfterMark(n: nat, rest: string)
    requires n < 0x1_0000
    ensures (CodeUnit(n) + rest)[2..] == Hex4(n) + rest
  {
  }

  lemma PairReads(hi: nat, lo: nat, rest: string)
    requires 0xD800 <= hi < 0xDC00 <= lo < 0xE000
    ensures ReadUnicode(Hex4(hi) + (CodeUnit(lo) + rest))
      == Some(Reading((0x1_0000 + (hi - 0xD800) * 0x400 + (lo - 0xDC00)) as char, rest))
  {
    var after := CodeUnit(lo) + rest;
    UnitReads(hi, after);
    assert after[..2] == "\\u" && after[2..] == Hex4(lo) + rest;
    UnitReads(lo, rest);
  }

  lemma EscapeReads(c: char, rest: string)
    requires ShortEscape(c) != '\0'
    ensures ReadChar(['\\', ShortEscape(c)] + rest) == Some(Reading(c, rest))
  {
    var x := ['\\', ShortEscape(c)] + rest;
    assert x[1..] == [ShortEscape(c)] + rest && x[1..][1..] == rest;
  }

  lemma UnitEscapeReads(n: nat, rest: string)
    requires IsScalar(n)
    ensures ReadChar(WriteUnicode(n, rest)) == Some(Reading(n as char, rest))
  {
    var x := WriteUnicode(n, rest);
    UnicodeReads(n, rest);
    assert x[..2] == ['\\', 'u'] && x[1..][1..] == x[2..];
  }

  lemma CharReads(c: char, ascii: bool, rest: string)
    ensures ReadChar(WriteChar(c, ascii, rest)) == Some(Reading(c, rest))
  {
    if ShortEscape(c) != '\0' { EscapeReads(c, rest); }
    else if !IsPlain(c, ascii) { UnitEscapeReads(c as int, rest); }
  }

  lemma {:induction false} TailReads(s: string, ascii: bool, rest: string)
    ensures ReadTail(WriteTail(s, ascii, rest)) == Some(Reading(s, rest))
  {
    if s != [] {
      CharReads(s[0], ascii, WriteTail(s[1..], ascii, rest));
      TailReads(s[1..], ascii, rest);
      assert s == [s[0]] + s[1..];
    }
  }

  lemma StringReads(s: string, ascii: bool, rest: string)
    ensures ReadString(WriteString(s, ascii, rest)) == Some(Reading(s, rest))
  {
    TailReads(s, ascii, rest);
    assert WriteString(s, ascii, rest)[1..] == WriteTail(s, ascii, rest);
  }

  // --- Reading back numbers ---

  lemma {:induction false} RunOfDigits(s: string, rest: string)
    requires (forall i :: 0 <= i < |s| ==> IsDigit(s[i])) && (rest == [] || !IsDigit(rest[0]))
    ensures DigitRun(s + rest) == |s|
  {
    if s == [] {
      assert s + rest == rest;
    } else {
      assert (s + rest)[1..] == s[1..] + rest;
      RunOfDigits(s[1..], rest);
    }
  }

  lemma DigitsRead(n: nat, rest: string)
    requires Delimited(rest)
    ensures var x := Digits(n) + rest;
      DigitRun(x) == |Digits(n)| && x[..|Digits(n)|] == Digits(n) && x[|Digits(n)|..] == rest
    ensures IsDigit(Digits(n)[0])
  {
    ParseDigits(n);
    RunOfDigits(Digits(n), rest);
  }

  lemma IntReads(n: int, rest: string)
    requires Delimited(rest)
    ensures ReadNumber(WriteInt(n, rest)) == Some(Reading(n, rest))
    ensures WriteInt(n, rest) != [] && (WriteInt(n, rest)[0] == '-' || IsDigit(WriteInt(n, rest)[0]))
  {
    var m: nat := if n < 0 then -n else n;
    DigitsRead(m, rest);
    ParseDigits(m);
    if n < 0 { assert WriteInt(n, rest)[1..] == Digits(m) + rest; }
  }

  // --- Reading back values ---

  /** The first character of a written value tells its kind. */
  lemma WordReads(v: Json, ascii: bool, rest: string)
    requires v.JNull? || v.JBool?
    ensures ReadValue(Write(v, ascii, rest)) == Some(Reading(v, rest))
  {
    var word := if v.JNull? then "null" else if v.b then "true" else "false";
    var x := word + rest;
    assert Write(v, ascii, rest) == x && x[|word|..] == rest && word <= x;
    assert x[0] == word[0];
  }

  lemma NumberReads(n: int, ascii: bool, rest: string)
    requires Delimited(rest)
    ensures ReadValue(Write(JInt(n), ascii, rest)) == Some(Reading(JInt(n), rest))
  {
    IntReads(n, rest);
    var x := WriteInt(n, rest);
    assert x[0] != 'n' && x[0] != 't' && x[0] != 'f' && x[0] != '"' && x[0] != '[' && x[0] != '{';
  }

  lemma TextReads(s: string, ascii: bool, rest: string)
    ensures ReadValue(Write(JStr(s), ascii, rest)) == Some(Reading(JStr(s), rest))
  {
    StringReads(s, ascii, rest);
    var x := WriteString(s, ascii, rest);
    assert x[0] == '"' && "\"" <= x;
  }

  lemma {:induction false} ValueReads(v: Json, ascii: bool, rest: string)
    requires Delimited(rest)
    ensures ReadValue(Write(v, ascii, rest)) == Some(Reading(v, rest))
    decreases v, 0
  {
    match v
    case JNull => WordReads(v, ascii, rest);
    case JBool(b) => WordReads(v, ascii, rest);
    case JInt(n) => NumberReads(n, ascii, rest);
    case JStr(s) => TextReads(s, ascii, rest);
    case JArr(items) => ArrayReads(items, ascii, rest);
    case JObj(fields) => ObjectReads(fields, ascii, rest);
  }

  /** The first character is not the bracket that would close an empty array. */
  lemma NoBracket(v: Json, ascii: bool, rest: string)
    ensures Write(v, ascii, rest) != [] && Write(v, ascii, rest)[0] != ']'
  {
    if v.JInt? { ParseDigits(if v.n < 0 then -v.n else v.n); }
  }

  lemma {:induction false} ArrayReads(items: seq<Json>, ascii: bool, rest: string)
    ensures ReadValue(Write(JArr(items), ascii, rest)) == Some(Reading(JArr(items), rest))
    decreases items, 1
  {
    var x := Write(JArr(items), ascii, rest);
    if items == [] {
      assert x == ['['] + ([']'] + rest) && x[0] == '[' && x[1] == ']' && x[2..] == rest;
      assert JArr([]) == JArr(items);
    } else {
      var body := Write(items[0], ascii, WriteItems(items[1..], ascii, rest));
      NoBracket(items[0], ascii, WriteItems(items[1..], ascii, rest));
      assert x[0] == '[' && x[1] == body[0] && x[1..] == body;
      ItemsRead(items, ascii, rest);
    }
  }

  lemma {:induction false} ItemsRead(items: seq<Json>, ascii: bool, rest: string)
    requires items != []
    ensures ReadItems(Write(items[0], ascii, WriteItems(items[1..], ascii, rest))) == Some(Reading(items, rest))
    decreases items, 0
  {
    var more := WriteItems(items[1..], ascii, rest);
    ValueReads(items[0], ascii, more);
    assert items == [items[0]] + items[1..];
    if |items| > 1 {
      ItemsRead(items[1..], ascii, rest);
      assert more[1..] == Write(items[1..][0], ascii, WriteItems(items[1..][1..], ascii, rest));
    } else {
      assert more[1..] == rest && items == [items[0]];
    }
  }

  lemma {:induction false} ObjectReads(fields: seq<Field>, ascii: bool, rest: string)
    ensures ReadValue(Write(JObj(fields), ascii, rest)) == Some(Reading(JObj(fields), rest))
    decreases fields, 1
  {
    var x := Write(JObj(fields), ascii, rest);
    if fields == [] {
      assert x == ['{'] + (['}'] + rest) && x[0] == '{' && x[1] == '}' && x[2..] == rest;
      assert JObj([]) == JObj(fields);
    } else {
      var body := WriteField(fields[0], ascii, WriteFields(fields[1..], ascii, rest));
      assert x[0] == '{' && x[1] == body[0] == '"' && x[1..] == body;
      FieldsRead(fields, ascii, rest);
    }
  }

  lemma {:induction false} FieldReads(f: Field, ascii: bool, rest: string)
    requires Delimited(rest)
    ensures ReadField(WriteField(f, ascii, rest)) == Some(Reading(f, rest))
    decreases f, 1
  {
    var after := [':'] + Write(f.value, ascii, rest);
    StringReads(f.key, ascii, after);
    ValueReads(f.value, ascii, rest);
    assert after[1..] == Write(f.value, ascii, rest);
  }

  lemma {:induction false} FieldsRead(fields: seq<Field>, ascii: bool, rest: string)
    requires fields != []
    ensures ReadFields(WriteField(fields[0], ascii, WriteFields(fields[1..], ascii, rest)))
      == Some(Reading(fields, rest))
    decreases fields, 0
  {
    var more := WriteFields(fields[1..], ascii, rest);
    FieldReads(fields[0], ascii, more);
    assert fields == [fields[0]] + fields[1..];
    if |fields| > 1 {
      FieldsRead(fields[1..], ascii, rest);
      assert more[1..] == WriteField(fields[1..][0], ascii, WriteFields(fields[1..][1..], ascii, rest));
    } else {
      assert more[1..] == rest && fields == [fields[0]];
    }
  }

  /** Every value is read back from its text, whichever characters are escaped. */
  lemma DumpsReadsBack(v: Json, ascii: bool)
    ensures ReadValue(Dumps(v, ascii)) == Some(Reading(v, ""))
  {
    ValueReads(v, ascii, "");
  }

  /** The signed argument text is JSON of the arguments with the keys of every object in order. */
  lemma CanonicalTextReads(arguments: Json)
    ensures ReadValue(Canonical.CanonicalArguments(arguments)) == Some(Reading(Canonical.Canon(arguments), ""))
  {
    DumpsReadsBack(Canonical.Canon(arguments), true);
  }

  // --- Which of its possible texts a string has ---

  /** What takes code units: what is no printable ASCII character, or, without `ascii`, what is below the space. */
  predicate TakesUnits(n: nat, ascii: bool) {
    n !in {8, 9, 10, 12, 13} && (n < 32 || (ascii && n > 126))
  }

  /** Quotes, backslashes and five control characters take two characters, and what needs no escape is itself. */
  lemma EscapesExactly(c: char, ascii: bool)
    requires !TakesUnits(c as int, ascii)
    ensures WriteChar(c, ascii, "") ==
      match c as int
      case 34 => "\\\""
      case 92 => "\\\\"
      case 10 => "\\n"
      case 13 => "\\r"
      case 9 => "\\t"
      case 8 => "\\b"
      case 12 => "\\f"
      case _ => [c]
  {
  }

  predicate UnitCharacters(x: string) {
    forall i | 0 <= i < |x| :: x[i] == '\\' || x[i] == 'u' || '0' <= x[i] <= '9' || 'a' <= x[i] <= 'f'
  }

  /** Code units are written in lower-case digits, one for a character of the basic plane and two for another. */
  lemma UnitsExactly(c: char, ascii: bool)
    requires TakesUnits(c as int, ascii)
    ensures |WriteChar(c, ascii, "")| == (if c as int < 0x1_0000 then 6 else 12)
    ensures UnitCharacters(WriteChar(c, ascii, ""))
  {
    assert WriteChar(c, ascii, "") == WriteUnicode(c as int, "");
    UnicodeUnits(c as int);
  }

  lemma UnicodeUnits(n: nat)
    requires n < 0x11_0000
    ensures |WriteUnicode(n, "")| == (if n < 0x1_0000 then 6 else 12) && UnitCharacters(WriteUnicode(n, ""))
  {
    if n < 0x1_0000 {
      UnitDigits(n);
      assert WriteUnicode(n, "") == CodeUnit(n);
    } else {
      var high, low := 0xD800 + (n - 0x1_0000) / 1024, 0xDC00 + (n - 0x1_0000) % 1024;
      UnitDigits(high);
      UnitDigits(low);
      assert WriteUnicode(n, "") == CodeUnit(high) + CodeUnit(low);
    }
  }

  lemma UnitDigits(n: nat)
    requires n < 0x1_0000
    ensures UnitCharacters(CodeUnit(n))
  {
    HexCharacters(n / 256);
    HexCharacters(n % 256);
  }

  lemma HexCharacters(n: nat)
    requires n < 256
    ensures forall i :: 0 <= i < 2 ==> '0' <= Hex2(n)[i] <= '9' || 'a' <= Hex2(n)[i] <= 'f'
  {
  }
}
