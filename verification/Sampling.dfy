/** How one observation result is abbreviated: clipped, sampled and compact_result. */
module Sampling {
  import opened Arithmetic
  import opened JsonValues
  import opened JsonSize

  /** What the model leaves open about text: which lines the error pattern finds, how Python prints
      a value that is not text, and where it splits text into lines. */
  datatype Text = Text(isError: string -> bool, show: Json -> string, splitLines: string -> seq<string>)

  const ELLIPSIS := "…[abbreviated]"

  function Clipped(s: string, limit: int): string {
    if |s| <= limit then s else s[..Min(|s|, Max(0, limit - 14))] + ELLIPSIS
  }

  const IMPORTANT: set<string> :=
    {"error", "error_code", "state", "status", "running", "health", "healthy", "resolved", "reachable", "tcp_reachable",
     "tls_reachable", "open", "status_code", "severity", "used_percent", "percent", "restart_count", "oom_killed",
     "exit_code", "rfkill", "soft_blocked", "hard_blocked", "name", "container", "address", "addresses", "interfaces",
     "containers", "missing_configured_containers"}

  predicate IsText(v: Option<Json>, names: set<string>) {
    v.Some? && v.value.JStr? && v.value.s in names
  }

  predicate Interesting(text: Text, item: Json) {
    if !item.JObj? then text.isError(text.show(item))
    else
      || Lookup(item, "healthy") == Some(JBool(false))
      || Lookup(item, "open") == Some(JBool(false))
      || Lookup(item, "reachable") == Some(JBool(false))
      || IsText(Lookup(item, "health"), {"unhealthy", "starting"})
      || IsText(Lookup(item, "state"), {"exited", "restarting", "dead", "DOWN", "inactive"})
      || Truthy(Lookup(item, "soft_blocked"))
      || Truthy(Lookup(item, "hard_blocked"))
  }

  function Those(text: Text, items: seq<Json>, interesting: bool): (r: seq<Json>)
    ensures forall x :: x in r ==> x in items && Interesting(text, x) == interesting
  {
    if items == [] then []
    else (if Interesting(text, items[0]) == interesting then [items[0]] else []) + Those(text, items[1..], interesting)
  }

  /** Which items of a list survive: failures first, and never more than the limit. */
  function Choose(text: Text, items: seq<Json>, limit: nat): (r: seq<Json>)
    requires limit >= 1
    ensures forall x :: x in r ==> x in items
    ensures |r| == Min(|items|, limit)
  {
    if |items| <= limit then items
    else
      var failures, others := Those(text, items, true), Those(text, items, false);
      ThosePartition(text, items);
      if |failures| > limit then
        if limit == 1 then failures[..1] else failures[..1] + failures[|failures| - (limit - 1)..]
      else (failures + others)[..limit]
  }

  lemma {:induction false} ThosePartition(text: Text, items: seq<Json>)
    ensures |Those(text, items, true)| + |Those(text, items, false)| == |items|
  {
    if items != [] { ThosePartition(text, items[1..]); }
  }

  /** When anything in the list looks like a failure, the first such item is what the sample opens
      with, however small the limit. */
  lemma FailureComesFirst(text: Text, items: seq<Json>, limit: nat, i: nat)
    requires limit >= 1 && |items| > limit
    requires i < |items| && Interesting(text, items[i]) && forall j :: 0 <= j < i ==> !Interesting(text, items[j])
    ensures Choose(text, items, limit)[0] == items[i]
  {
    FirstOfThose(text, items, i);
    ThosePartition(text, items);
  }

  lemma {:induction false} FirstOfThose(text: Text, items: seq<Json>, i: nat)
    requires i < |items| && Interesting(text, items[i]) && forall j :: 0 <= j < i ==> !Interesting(text, items[j])
    ensures Those(text, items, true) != [] && Those(text, items, true)[0] == items[i]
  {
    if i > 0 { FirstOfThose(text, items[1..], i - 1); }
  }

  function ByImportance(fields: seq<Field>, important: bool): (r: seq<Field>)
    ensures forall f :: f in r ==> f in fields
    ensures |r| <= |fields|
  {
    if fields == [] then []
    else (if (fields[0].key in IMPORTANT) == important then [fields[0]] else []) + ByImportance(fields[1..], important)
  }

  /** The twenty keys that are kept: the important ones first, each group in its own order. */
  function Kept(fields: seq<Field>): (r: seq<Field>)
    ensures forall f :: f in r ==> f in fields
  {
    var ordered := ByImportance(fields, true) + ByImportance(fields, false);
    ordered[..Min(|ordered|, 20)]
  }

  function LineText(text: Text, entry: Json): string {
    match entry
    case JObj(_) => (match Lookup(entry, "message") case Some(JStr(s)) => s case Some(v) => text.show(v)
      case None => "")
    case JStr(s) => s
    case _ => text.show(entry)
  }

  function LineTexts(text: Text, entries: seq<Json>): seq<string> {
    if entries == [] then [] else [LineText(text, entries[0])] + LineTexts(text, entries[1..])
  }

  function ErrorLines(text: Text, lines: seq<string>): seq<string> {
    if lines == [] then [] else (if text.isError(lines[0]) then [lines[0]] else []) + ErrorLines(text, lines[1..])
  }

  function Excerpts(text: Text, lines: seq<string>): seq<string> {
    var errors := ErrorLines(text, lines);
    var chosen := if errors != [] then [errors[0], errors[|errors| - 1]] else lines[Max(0, |lines| - 2)..];
    if |chosen| == 2 && chosen[0] == chosen[1] then [chosen[0]] else chosen
  }

  function ClippedItems(lines: seq<string>, limit: int): seq<Json> {
    if lines == [] then [] else [JStr(Clipped(lines[0], limit))] + ClippedItems(lines[1..], limit)
  }

  /** The lines of a log field, if it holds any. */
  function LogLines(text: Text, f: Field): Option<seq<string>> {
    if f.key !in {"lines", "entries", "output"} then None
    else match f.value
      case JStr(s) => Some(text.splitLines(s))
      case JArr(items) => Some(LineTexts(text, items))
      case _ => None
  }

  function Sampled(text: Text, v: Json, textLimit: int, itemLimit: nat, depth: nat): (r: Json)
    requires itemLimit >= 1
    ensures v.JObj? ==> r.JObj?
    decreases v, 0
  {
    match v
    case JStr(s) => JStr(Clipped(s, textLimit))
    case JArr(items) => JArr(SampledItems(text, items, Choose(text, items, itemLimit), textLimit, itemLimit, depth))
    case JObj(fields) =>
      if depth > 4 then JObj([Field("_context_note",
        JStr("Nested details omitted; original observation is persisted."))])
      else JObj(SampledFields(text, fields, Kept(fields), [], textLimit, itemLimit, depth))
    case _ => v
  }

  function SampledItems(text: Text, items: seq<Json>, chosen: seq<Json>, textLimit: int, itemLimit: nat,
                        depth: nat): seq<Json>
    requires itemLimit >= 1 && forall x :: x in chosen ==> x in items
    decreases items, |chosen|
  {
    if chosen == [] then []
    else
      assert chosen[0] in items;
      [Sampled(text, chosen[0], textLimit, itemLimit, depth + 1)]
      + SampledItems(text, items, chosen[1..], textLimit, itemLimit, depth)
  }

  function SampledFields(text: Text, fields: seq<Field>, kept: seq<Field>, result: seq<Field>, textLimit: int,
                         itemLimit: nat, depth: nat): seq<Field>
    requires itemLimit >= 1 && forall f :: f in kept ==> f in fields
    decreases fields, |kept|, 1
  {
    if kept == [] then result
    else
      assert kept[0] in fields;
      var next := WithField(text, fields, kept[0], result, textLimit, itemLimit, depth);
      SampledFields(text, fields, kept[1..], next, textLimit, itemLimit, depth)
  }

  /** What one kept key adds: an excerpt of a log with the number of its lines, or its sampled value, with the
      number of items where they are not all kept. */
  function WithField(text: Text, fields: seq<Field>, f: Field, result: seq<Field>, textLimit: int, itemLimit: nat,
                     depth: nat): seq<Field>
    requires itemLimit >= 1 && f in fields
    decreases fields, 0, 0
  {
    match LogLines(text, f)
    case Some(lines) =>
      var excerpts := ClippedItems(Excerpts(text, lines), textLimit);
      Put(Put(result, f.key, JArr(excerpts[..Min(|excerpts|, Min(2, itemLimit))])), "_context_total_log_entries",
        JInt(|lines|))
    case None =>
      var sampled := Put(result, f.key, Sampled(text, f.value, textLimit, itemLimit, depth + 1));
      if f.value.JArr? && |f.value.items| > itemLimit
      then Put(sampled, "_context_total_" + f.key, JInt(|f.value.items|)) else sampled
  }

  /** The four rounds of compact_result: how much text and how many items each keeps. */
  const ROUNDS: seq<(int, nat)> := [(220, 6), (140, 4), (90, 2), (60, 1)]

  function Candidate(text: Text, result: seq<Field>, round: nat): seq<Field>
    requires round < 4
  {
    Put(Sampled(text, JObj(result), ROUNDS[round].0, ROUNDS[round].1, 0).fields, "_context_abbreviated", JBool(true))
  }

  /** The first round from `round` on whose candidate fits, or 4. */
  function FittingRound(text: Text, result: seq<Field>, budget: int, round: nat): (r: nat)
    requires round <= 4
    ensures round <= r <= 4
    ensures r < 4 ==> Size(JObj(Candidate(text, result, r))) <= budget
    ensures forall k :: round <= k < r ==> Size(JObj(Candidate(text, result, k))) > budget
    decreases 4 - round
  {
    if round == 4 || Size(JObj(Candidate(text, result, round))) <= budget then round
    else FittingRound(text, result, budget, round + 1)
  }

  /** The first text line of the result that the error pattern finds. */
  function FirstError(text: Text, items: seq<Json>): Option<string> {
    if items == [] then None
    else if items[0].JStr? && text.isError(items[0].s) then Some(items[0].s)
    else FirstError(text, items[1..])
  }

  function ErrorExcerpt(text: Text, result: seq<Field>, budget: int): Option<seq<Field>> {
    match Lookup(JObj(result), "lines")
    case Some(JArr(items)) =>
      (match FirstError(text, items)
       case Some(line) =>
         var candidate := [Field("lines", JArr([JStr(Clipped(line, Max(20, budget - 55)))])),
           Field("_context_abbreviated", JBool(true))];
         if line != "" && Size(JObj(candidate)) <= budget then Some(candidate) else None
       case None => None)
    case _ => None
  }

  function Summary(summary: string, budget: int): seq<Field> {
    [Field("_context_summary", JStr(Clipped(summary, Max(0, budget - 40))))]
  }

  function CompactResult(text: Text, result: seq<Field>, budget: int, summary: string): seq<Field> {
    if Size(JObj(result)) <= budget then result
    else
      var round := FittingRound(text, result, budget, 0);
      if round < 4 then Candidate(text, result, round)
      else match ErrorExcerpt(text, result, budget)
        case Some(candidate) => candidate
        case None => Summary(summary, budget)
  }

  // --- What fits ---

  lemma SummarySize(summary: string, budget: int)
    ensures Size(JObj(Summary(summary, budget))) == 23 + Escaped(Clipped(summary, Max(0, budget - 40)))
  {
    var fields := Summary(summary, budget);
    ObjectSize(fields);
    StringSize(Clipped(summary, Max(0, budget - 40)));
    assert fields[1..] == [];
    PlainKey();
  }

  lemma PlainKey()
    ensures Escaped("_context_summary") == 16
  {
    AllPlain("_context_summary");
  }

  lemma PlainEllipsis()
    ensures Escaped(ELLIPSIS) == 14
  {
    AllPlain(ELLIPSIS);
  }

  predicate Unescaped(c: char) {
    ' ' <= c && c != '"' && c != '\\'
  }

  lemma {:induction false} AllPlain(s: string)
    requires forall i :: 0 <= i < |s| ==> Unescaped(s[i])
    ensures Escaped(s) == |s|
  {
    if s != [] {
      assert Unescaped(s[0]);
      AllPlain(s[1..]);
    }
  }

  /** Clipped text is at most the limit long, and needs no more escapes than the whole text. */
  lemma ClippedLength(s: string, limit: nat)
    ensures |Clipped(s, limit)| <= Max(14, limit)
    ensures Overhead(Clipped(s, limit)) <= Overhead(s)
    ensures limit < 14 && |s| > limit ==> Escaped(Clipped(s, limit)) == 14
  {
    if |s| > limit {
      var n := Min(|s|, Max(0, limit - 14));
      PrefixOverhead(s, n);
      EscapedConcat(s[..n], ELLIPSIS);
      PlainEllipsis();
    }
  }

  /** The last resort meets every budget of at least 37, as long as the summary needs no more than
      17 characters of escapes. */
  lemma CompactResultFits(text: Text, result: seq<Field>, budget: int, summary: string)
    requires budget >= 37 && Overhead(summary) <= 17
    ensures Size(JObj(CompactResult(text, result, budget, summary))) <= budget
  {
    SummarySize(summary, budget);
    ClippedLength(summary, Max(0, budget - 40));
  }

  function Repeated(c: char, n: nat): string {
    seq(n, _ => c)
  }

  /** A result that nothing abbreviates: one field whose key is longer than `n`. */
  function Wide(n: nat): seq<Field> {
    [Field(Repeated('k', n + 10), JNull)]
  }

  lemma WideNeverFits(text: Text, n: nat, budget: int, summary: string)
    requires budget <= n
    ensures CompactResult(text, Wide(n), budget, summary) == Summary(summary, budget)
    ensures Size(JObj(Wide(n))) > n + 10
  {
    var f := Wide(n)[0];
    ObjectSize([f]);
    assert |f.key| > 7;
    assert f.key != "lines" && f.key != "entries" && f.key != "output";
    forall round | 0 <= round < 4 ensures Size(JObj(Candidate(text, Wide(n), round))) > n {
      WideCandidate(text, n, round);
    }
    assert Lookup(JObj(Wide(n)), "lines") == None by { assert Wide(n)[1..] == []; }
  }

  lemma WideCandidate(text: Text, n: nat, round: nat)
    requires round < 4
    ensures Size(JObj(Candidate(text, Wide(n), round))) > n
  {
    var f := Wide(n)[0];
    assert |f.key| > 7;
    assert f.key != "lines" && f.key != "entries" && f.key != "output";
    var fields := Wide(n);
    assert fields[1..] == [];
    assert Kept(fields) == [f];
    assert LogLines(text, f) == None;
    var textLimit, itemLimit := ROUNDS[round].0, ROUNDS[round].1;
    assert Sampled(text, JNull, textLimit, itemLimit, 1) == JNull;
    assert SampledFields(text, fields, [f], [], textLimit, itemLimit, 0)
      == SampledFields(text, fields, [f][1..], [f], textLimit, itemLimit, 0);
    assert SampledFields(text, fields, [], [f], textLimit, itemLimit, 0) == [f];
    assert [f][1..] == [];
    var c := Candidate(text, fields, round);
    assert c[0].key == f.key;
    ObjectSize(c);
  }

  /** A result of one long text under a key of `m` letters: every round clips the text. */
  function Long(m: nat, n: nat): seq<Field> {
    [Field(Repeated('k', m), JStr(Repeated('x', n + 300)))]
  }

  lemma RepeatedCost(n: nat, c: char)
    requires Unescaped(c)
    ensures Escaped(Repeated(c, n)) == n
  {
    AllPlain(Repeated(c, n));
  }

  lemma ClippedRepeated(n: nat, limit: nat)
    requires 14 <= limit < n
    ensures Clipped(Repeated('x', n), limit) == Repeated('x', limit - 14) + ELLIPSIS
  {
    assert Repeated('x', n)[..limit - 14] == Repeated('x', limit - 14);
  }

  lemma LongClipped(n: nat, limit: nat)
    requires 14 <= limit < n
    ensures Escaped(Clipped(Repeated('x', n), limit)) == limit
  {
    ClippedRepeated(n, limit);
    RepeatedCost(limit - 14, 'x');
    EscapedConcat(Repeated('x', limit - 14), ELLIPSIS);
    PlainEllipsis();
  }

  /** One text field whose key starts with a letter that no special key has is clipped, whatever the limits. */
  lemma OneTextSampled(text: Text, f: Field, textLimit: int, itemLimit: nat)
    requires f.key != "" && f.key[0] == 'k' && f.value.JStr? && itemLimit >= 1
    ensures Sampled(text, JObj([f]), textLimit, itemLimit, 0)
      == JObj([Field(f.key, JStr(Clipped(f.value.s, textLimit)))])
  {
    var fields, clipped := [f], Field(f.key, JStr(Clipped(f.value.s, textLimit)));
    assert fields[1..] == [] && Kept(fields) == fields;
    assert LogLines(text, f) == None;
    assert Sampled(text, f.value, textLimit, itemLimit, 1) == clipped.value;
    assert WithField(text, fields, f, [], textLimit, itemLimit, 0) == [clipped];
    assert SampledFields(text, fields, fields[1..], [clipped], textLimit, itemLimit, 0) == [clipped];
  }

  lemma LongCandidate(text: Text, m: nat, n: nat, round: nat)
    requires round < 4 && m >= 1
    ensures Size(JObj(Candidate(text, Long(m, n), round))) == 35 + m + ROUNDS[round].0
  {
    var f, limit := Long(m, n)[0], ROUNDS[round].0;
    LongSampled(text, m, n, round);
    RepeatedCost(m, 'k');
    LongClipped(n + 300, limit);
    MarkedSize(f.key, Clipped(f.value.s, limit));
  }

  lemma LongSampled(text: Text, m: nat, n: nat, round: nat)
    requires round < 4 && m >= 1
    ensures var f := Long(m, n)[0];
      Candidate(text, Long(m, n), round)
        == [Field(f.key, JStr(Clipped(f.value.s, ROUNDS[round].0))), Field(MARK, JBool(true))]
  {
    var f := Long(m, n)[0];
    assert f.key[0] == 'k' && MARK[0] == '_';
    OneTextSampled(text, f, ROUNDS[round].0, ROUNDS[round].1);
    PutSecond(Field(f.key, JStr(Clipped(f.value.s, ROUNDS[round].0))), Field(MARK, JBool(true)));
  }

  const MARK := "_context_abbreviated"

  lemma MarkedSize(key: string, value: string)
    ensures Size(JObj([Field(key, JStr(value)), Field(MARK, JBool(true))])) == 35 + Escaped(key) + Escaped(value)
  {
    TwoFieldSize(Field(key, JStr(value)), Field(MARK, JBool(true)));
    StringSize(value);
    MarkCost();
    BooleanSize();
  }

  lemma MarkCost()
    ensures Escaped(MARK) == 20
  {
    AllPlain(MARK);
  }

  lemma BooleanSize()
    ensures Size(JBool(true)) == 4
  {
  }

  lemma PutSecond(f: Field, g: Field)
    requires f.key != g.key
    ensures Put([f], g.key, g.value) == [f, g]
  {
    assert [f][1..] == [];
  }

  lemma TwoFieldSize(f: Field, g: Field)
    ensures Size(JObj([f, g])) == 3 + FieldSize(f) + FieldSize(g)
  {
    ObjectSize([f, g]);
    assert [f, g][1..] == [g] && [g][1..] == [];
    assert FieldsSize([g]) == 1 + FieldSize(g);
  }

  /** Every budget of at least 100 is used up by some result, however long. */
  lemma LongFillsBudget(text: Text, budget: nat, n: nat, summary: string)
    requires budget >= 100 && n >= budget
    ensures Size(JObj(Long(budget - 95, n))) > n
    ensures Size(JObj(CompactResult(text, Long(budget - 95, n), budget, summary))) == budget
  {
    var fields := Long(budget - 95, n);
    ObjectSize(fields);
    StringSize(fields[0].value.s);
    assert fields[1..] == [];
    LongCandidate(text, budget - 95, n, 0);
    LongCandidate(text, budget - 95, n, 1);
    LongCandidate(text, budget - 95, n, 2);
    LongCandidate(text, budget - 95, n, 3);
    var round := FittingRound(text, fields, budget, 0);
    assert round == 3 && CompactResult(text, fields, budget, summary) == Candidate(text, fields, 3);
  }

  /** Exactly when compact_result meets a budget for every result it may be given. */
  lemma CompactResultFitsIff(text: Text, budget: nat, summary: string)
    ensures (forall result: seq<Field> :: Size(JObj(CompactResult(text, result, budget, summary))) <= budget)
      <==> 23 + Escaped(Clipped(summary, Max(0, budget - 40))) <= budget
  {
    SummarySize(summary, budget);
    WideNeverFits(text, budget, budget, summary);
    if 23 + Escaped(Clipped(summary, Max(0, budget - 40))) > budget {
      assert Size(JObj(CompactResult(text, Wide(budget), budget, summary))) > budget;
    }
  }
}
