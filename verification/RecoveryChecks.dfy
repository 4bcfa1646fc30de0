/** The checks that decide whether an incident has recovered, and what it means for one to pass. */
module RecoveryChecks {
  import opened JsonValues
  import opened JsonText
  import opened Strings
  import opened Topology
  import Canonical

  datatype Outcome<+T> = Ok(value: T) | Refused(reason: Refusal)

  datatype Refusal = NoProfile | NoHealthChecks | TargetNotCovered | PlanTooLarge

  // --- matches ---

  /** `path.split('.')`. */
  function SplitDots(s: string): (r: seq<string>)
    ensures r != []
  {
    if s == [] then [""]
    else
      var rest := SplitDots(s[1..]);
      if s[0] == '.' then [""] + rest else [[s[0]] + rest[0]] + rest[1..]
  }

  /** `int(key)` on plain decimal text with an optional sign. */
  function ParseIndex(key: string): Option<int> {
    var signed := key != [] && key[0] in ['-', '+'];
    var n := ParseNat(if signed then key[1..] else key);
    if n.None? then None
    else
      var magnitude: int := n.value;
      Some(if signed && key[0] == '-' then -magnitude else magnitude)
  }

  /** One step into a value; a negative index counts from the end. */
  function Step(value: Json, key: string): Option<Json> {
    match value
    case JArr(items) =>
      (match ParseIndex(key)
       case None => None
       case Some(i) =>
         if 0 <= i < |items| then Some(items[i])
         else if -|items| <= i < 0 then Some(items[|items| + i])
         else None)
    case _ => Lookup(value, key)
  }

  function Follow(value: Json, path: seq<string>): Option<Json> {
    if path == [] then Some(value)
    else match Step(value, path[0]) case None => None case Some(next) => Follow(next, path[1..])
  }

  /** Python's equality, which ignores the order of an object's fields. */
  predicate Same(a: Json, b: Json) {
    Canonical.Canon(a) == Canonical.Canon(b)
  }

  predicate Meets(result: Json, f: Field) {
    var found := Follow(result, SplitDots(f.key));
    found.Some? && Same(found.value, f.value)
  }

  predicate Matches(result: Json, expected: seq<Field>) {
    forall f :: f in expected ==> Meets(result, f)
  }

  method FollowPath(result: Json, path: seq<string>) returns (value: Option<Json>)
    ensures value == Follow(result, path)
  {
    value := Some(result);
    var j := 0;
    while j < |path|
      invariant 0 <= j <= |path|
      invariant value.Some? && Follow(result, path) == Follow(value.value, path[j..])
    {
      assert path[j..][0] == path[j] && path[j..][1..] == path[j + 1..];
      value := Step(value.value, path[j]);
      if value.None? {
        return;
      }
      j := j + 1;
    }
  }

  // --- What it means for a check to pass ---

  function JoinedByDots(pieces: seq<string>): string
    requires pieces != []
  {
    if |pieces| == 1 then pieces[0] else pieces[0] + ['.'] + JoinedByDots(pieces[1..])
  }

  predicate DotFree(s: string) {
    forall i | 0 <= i < |s| :: s[i] != '.'
  }

  /** Splitting at the dots is undone by joining, and leaves no dot in a piece. */
  lemma {:induction false} SplitJoins(s: string)
    ensures JoinedByDots(SplitDots(s)) == s && forall p :: p in SplitDots(s) ==> DotFree(p)
  {
    if s != [] {
      var rest := SplitDots(s[1..]);
      SplitJoins(s[1..]);
      assert s == [s[0]] + s[1..];
      if s[0] == '.' {
        assert ([""] + rest)[1..] == rest;
      } else {
        var split := [[s[0]] + rest[0]] + rest[1..];
        assert split[1..] == rest[1..] && SplitDots(s) == split;
        assert DotFree(rest[0]) && DotFree(split[0]);
        forall p | p in split ensures DotFree(p) {
          if p != split[0] { assert p in rest[1..] && p in rest; }
        }
      }
    }
  }

  /** No other list of dot-free pieces joins to the same text. */
  lemma {:induction false} SplitOnlySo(pieces: seq<string>)
    requires pieces != [] && forall p :: p in pieces ==> DotFree(p)
    ensures SplitDots(JoinedByDots(pieces)) == pieces
    decreases |pieces|, |pieces[0]|
  {
    var p := pieces[0];
    if p != "" {
      var shorter := [p[1..]] + pieces[1..];
      assert JoinedByDots(pieces) == [p[0]] + JoinedByDots(shorter) by {
        assert shorter[1..] == pieces[1..] && p == [p[0]] + p[1..];
      }
      assert DotFree(p) && p[0] != '.' && DotFree(p[1..]);
      SplitOnlySo(shorter);
      assert JoinedByDots(pieces)[1..] == JoinedByDots(shorter);
      assert [[p[0]] + shorter[0]] + shorter[1..] == pieces;
    } else if |pieces| > 1 {
      SplitOnlySo(pieces[1..]);
      assert JoinedByDots(pieces) == ['.'] + JoinedByDots(pieces[1..])
        && JoinedByDots(pieces)[1..] == JoinedByDots(pieces[1..]);
      assert [""] + pieces[1..] == pieces;
    } else {
      assert pieces == [""];
    }
  }

  /** The texts of an index: decimal digits behind zeros and at most one sign. */
  ghost predicate IndexText(s: string, i: int) {
    exists z: nat ::
      || (i >= 0 && (s == Zeros(z) + Digits(i) || s == ['+'] + (Zeros(z) + Digits(i))))
      || (i <= 0 && s == ['-'] + (Zeros(z) + Digits(-i)))
  }

  lemma ParseIndexExactly(s: string, i: int)
    ensures ParseIndex(s) == Some(i) <==> IndexText(s, i)
  {
    if ParseIndex(s) == Some(i) { IndexHasText(s, i); }
    forall z: nat | i >= 0 && s == Zeros(z) + Digits(i) ensures ParseIndex(s) == Some(i) {
      ParseZeros(z, i);
      ParseDigits(i);
      assert s[0] == if z > 0 then '0' else Digits(i)[0];
    }
    forall z: nat | i >= 0 && s == ['+'] + (Zeros(z) + Digits(i)) ensures ParseIndex(s) == Some(i) { ParseZeros(z, i); }
    forall z: nat | i <= 0 && s == ['-'] + (Zeros(z) + Digits(-i)) ensures ParseIndex(s) == Some(i) {
      ParseZeros(z, -i);
    }
  }

  lemma IndexHasText(s: string, i: int)
    requires ParseIndex(s) == Some(i)
    ensures IndexText(s, i)
  {
    var signed := s != [] && s[0] in ['-', '+'];
    var digits := if signed then s[1..] else s;
    var n := ParseNat(digits).value;
    ParseNatExactly(digits, n);
    var z: nat :| digits == Zeros(z) + Digits(n);
    if signed { assert s == [s[0]] + digits; }
  }

  /** `next` is the field of `value` of that name, or its item at that index. */
  ghost predicate Member(value: Json, piece: string, next: Json) {
    || (value.JObj? && Has(value.fields, piece) && Get(value.fields, piece) == next)
    || (value.JArr? && exists i: int :: IndexText(piece, i) && ItemAt(value.items, i, next))
  }

  /** A negative index counts from the end. */
  predicate ItemAt(items: seq<Json>, i: int, next: Json) {
    || (0 <= i < |items| && next == items[i])
    || (-|items| <= i < 0 && next == items[|items| + i])
  }

  lemma StepExactly(value: Json, piece: string, next: Json)
    ensures Step(value, piece) == Some(next) <==> Member(value, piece, next)
  {
    if value.JArr? {
      if ParseIndex(piece).Some? { ParseIndexExactly(piece, ParseIndex(piece).value); }
      forall i: int | IndexText(piece, i) ensures ParseIndex(piece) == Some(i) { ParseIndexExactly(piece, i); }
    }
  }

  /** Each value is a member of the one before, by the next piece. */
  ghost predicate Chain(values: seq<Json>, pieces: seq<string>) {
    |values| == |pieces| + 1 && forall k | 0 <= k < |pieces| :: Member(values[k], pieces[k], values[k + 1])
  }

  /** The reply has a value at the dotted path, and it is the expected one. */
  ghost predicate Holds(result: Json, f: Field) {
    exists pieces: seq<string>, values: seq<Json> :: Leads(result, f, pieces, values)
  }

  ghost predicate Leads(result: Json, f: Field, pieces: seq<string>, values: seq<Json>) {
    && pieces != [] && (forall p :: p in pieces ==> DotFree(p)) && JoinedByDots(pieces) == f.key
    && Chain(values, pieces) && values[0] == result && Same(values[|pieces|], f.value)
  }

  lemma {:induction false} FollowChain(value: Json, path: seq<string>) returns (values: seq<Json>)
    requires Follow(value, path).Some?
    ensures Chain(values, path) && values[0] == value && values[|path|] == Follow(value, path).value
  {
    if path == [] {
      values := [value];
    } else {
      var next := Step(value, path[0]).value;
      var rest := FollowChain(next, path[1..]);
      StepExactly(value, path[0], next);
      values := [value] + rest;
      forall k | 0 <= k < |path| ensures Member(values[k], path[k], values[k + 1]) {
        if k > 0 { assert Member(rest[k - 1], path[1..][k - 1], rest[k - 1 + 1]); }
      }
    }
  }

  lemma {:induction false} ChainFollows(values: seq<Json>, path: seq<string>)
    requires Chain(values, path)
    ensures Follow(values[0], path) == Some(values[|path|])
  {
    if path != [] {
      assert Member(values[0], path[0], values[0 + 1]);
      StepExactly(values[0], path[0], values[1]);
      forall k | 0 <= k < |path[1..]| ensures Member(values[1..][k], path[1..][k], values[1..][k + 1]) {
        assert Member(values[k + 1], path[k + 1], values[k + 1 + 1]);
      }
      ChainFollows(values[1..], path[1..]);
    }
  }

  lemma MeetsExactly(result: Json, f: Field)
    ensures Meets(result, f) <==> Holds(result, f)
  {
    SplitJoins(f.key);
    if Meets(result, f) {
      var values := FollowChain(result, SplitDots(f.key));
      assert Leads(result, f, SplitDots(f.key), values);
    }
    forall pieces: seq<string>, values: seq<Json> | Leads(result, f, pieces, values) ensures Meets(result, f) {
      SplitOnlySo(pieces);
      ChainFollows(values, pieces);
    }
  }

  /** A reply matches exactly when every expected path leads to its value. */
  lemma MatchesExactly(result: Json, expected: seq<Field>)
    ensures Matches(result, expected) <==> forall f :: f in expected ==> Holds(result, f)
  {
    forall f | f in expected ensures Meets(result, f) <==> Holds(result, f) { MeetsExactly(result, f); }
  }

  /** On values as Python holds them, the comparison is Python's: by key, and by place in a list. */
  lemma SameExactly(a: Json, b: Json)
    requires Canonical.Dictionary(a) && Canonical.Dictionary(b)
    ensures Same(a, b) <==> Canonical.Equal(a, b)
  {
    Canonical.CanonExactly(a, b);
  }

  /** The loop that stops at the first path that is missing or different. */
  method CheckMatches(result: Json, expected: seq<Field>) returns (r: bool)
    ensures r == Matches(result, expected)
    ensures r <==> forall f :: f in expected ==> Holds(result, f)
  {
    MatchesExactly(result, expected);
    var i := 0;
    while i < |expected|
      invariant 0 <= i <= |expected|
      invariant forall k :: 0 <= k < i ==> Meets(result, expected[k])
    {
      var value := FollowPath(result, SplitDots(expected[i].key));
      if value.None? || !Same(value.value, expected[i].value) {
        assert !Meets(result, expected[i]);
        return false;
      }
      i := i + 1;
    }
    r := true;
  }

  // --- The text a check is deduplicated by ---

  function CheckDocument(c: Check): seq<Field> {
    [Field("tool", JStr(c.tool)), Field("arguments", c.arguments), Field("expect", JObj(c.expected))]
  }

  function CheckText(c: Check): string {
    Canonical.CanonicalArguments(JObj(CheckDocument(c)))
  }

  lemma DocumentGet(c: Check)
    ensures var d := CheckDocument(c);
      && Has(d, "tool") && Get(d, "tool") == JStr(c.tool)
      && Has(d, "arguments") && Get(d, "arguments") == c.arguments
      && Has(d, "expect") && Get(d, "expect") == JObj(c.expected)
  {
    var d := CheckDocument(c);
    assert d[0].key == "tool" && d[1].key == "arguments" && d[2].key == "expect";
  }

  /** Two checks have one text exactly when they call one tool with the same arguments and expect the same. */
  lemma CheckTextExactly(c: Check, d: Check)
    ensures CheckText(c) == CheckText(d)
      <==> c.tool == d.tool && Same(c.arguments, d.arguments) && Same(JObj(c.expected), JObj(d.expected))
  {
    if CheckText(c) == CheckText(d) { SameTextSaysSame(c, d); }
    if c.tool == d.tool && Same(c.arguments, d.arguments) && Same(JObj(c.expected), JObj(d.expected)) {
      Canonical.CanonFieldsAt(CheckDocument(c));
      Canonical.CanonFieldsAt(CheckDocument(d));
      assert Canonical.CanonFields(CheckDocument(c)) == Canonical.CanonFields(CheckDocument(d));
    }
  }

  lemma SameTextSaysSame(c: Check, d: Check)
    requires CheckText(c) == CheckText(d)
    ensures c.tool == d.tool && Same(c.arguments, d.arguments) && Same(JObj(c.expected), JObj(d.expected))
  {
    DocumentGet(c);
    DocumentGet(d);
    Canonical.SameTextSameLookups(CheckDocument(c), CheckDocument(d), "tool");
    Canonical.SameTextSameLookups(CheckDocument(c), CheckDocument(d), "arguments");
    Canonical.SameTextSameLookups(CheckDocument(c), CheckDocument(d), "expect");
  }

  function Texts(checks: seq<Check>): (r: seq<string>)
    ensures |r| == |checks| && forall i :: 0 <= i < |r| ==> r[i] == CheckText(checks[i])
  {
    seq(|checks|, i requires 0 <= i < |checks| => CheckText(checks[i]))
  }

  /** Each text once, where it first occurs. */
  function FirstTexts(checks: seq<Check>): (r: seq<string>)
    ensures Distinct(r) && forall x :: x in r <==> x in Texts(checks)
  {
    if checks == [] then []
    else
      var last := |checks| - 1;
      var r := FirstTexts(checks[..last]);
      assert Texts(checks) == Texts(checks[..last]) + [CheckText(checks[last])];
      if CheckText(checks[last]) in r then r else r + [CheckText(checks[last])]
  }

  lemma {:induction false} FirstTextsPrefix(a: seq<Check>, b: seq<Check>)
    ensures FirstTexts(a) <= FirstTexts(a + b)
  {
    if b == [] {
      assert a + b == a;
    } else {
      assert (a + b)[..|a + b| - 1] == a + b[..|b| - 1];
      FirstTextsPrefix(a, b[..|b| - 1]);
    }
  }

  function Position(texts: seq<string>, text: string): (i: nat)
    ensures i <= |texts| && (i < |texts| ==> texts[i] == text)
    ensures forall j :: 0 <= j < i ==> texts[j] != text
  {
    if texts == [] || texts[0] == text then 0 else 1 + Position(texts[1..], text)
  }

  function PositionOf(checks: seq<Check>, text: string): (i: nat)
    ensures i <= |checks|
  {
    Position(Texts(checks), text)
  }

  /** `unique[text] = check`: a repeated text keeps its place and takes the later check. */
  function Remember(unique: seq<Check>, c: Check): (r: seq<Check>)
    ensures forall d :: d in r ==> d == c || d in unique
  {
    var i := PositionOf(unique, CheckText(c));
    if i < |unique| then unique[i := c] else unique + [c]
  }

  function Unique(checks: seq<Check>): (r: seq<Check>)
    ensures forall c :: c in r ==> c in checks
  {
    if checks == [] then [] else Remember(Unique(checks[..|checks| - 1]), checks[|checks| - 1])
  }

  lemma {:induction false} UniqueKeepsFirstTexts(checks: seq<Check>)
    ensures Texts(Unique(checks)) == FirstTexts(checks)
  {
    if checks != [] {
      var u := Unique(checks[..|checks| - 1]);
      var c := checks[|checks| - 1];
      UniqueKeepsFirstTexts(checks[..|checks| - 1]);
      RememberTexts(u, c);
    }
  }

  lemma RememberTexts(unique: seq<Check>, c: Check)
    ensures Texts(Remember(unique, c)) == if CheckText(c) in Texts(unique) then Texts(unique)
      else Texts(unique) + [CheckText(c)]
  {
    var texts, i := Texts(unique), PositionOf(unique, CheckText(c));
    if i < |unique| {
      assert texts[i] == CheckText(c);
      assert Texts(unique[i := c]) == texts;
    } else {
      TextsAppend(unique, [c]);
      assert Texts([c]) == [CheckText(c)];
    }
  }

  // --- verification_checks ---

  function ChecksAt(t: Services, name: string): seq<Check> {
    if name in t then t[name].checks else []
  }

  function ChecksOf(t: Services, order: seq<string>): (r: seq<Check>)
    ensures forall c :: c in r <==> exists n :: n in order && c in ChecksAt(t, n)
  {
    if order == [] then []
    else
      var last := order[|order| - 1];
      assert order == order[..|order| - 1] + [last];
      ChecksOf(t, order[..|order| - 1]) + ChecksAt(t, last)
  }

  lemma {:induction false} ChecksOfPrefix(t: Services, order: seq<string>, i: nat)
    requires i <= |order|
    ensures ChecksOf(t, order[..i]) <= ChecksOf(t, order)
  {
    if i < |order| {
      assert order[..|order| - 1][..i] == order[..i];
      ChecksOfPrefix(t, order[..|order| - 1], i);
    } else {
      assert order[..i] == order;
    }
  }

  /** The action whose target must be covered. */
  datatype Target = Target(tool: string, arguments: Json)

  function TargetKey(tool: string): string {
    if EndsWith(tool, "_container") then "container" else "service"
  }

  function StateTool(key: string): string {
    if key == "container" then "docker_inspect" else "service_status"
  }

  predicate CoversTarget(c: Check, a: Target) {
    var key := TargetKey(a.tool);
    c.tool == StateTool(key) && Same(GetOrNull(c.arguments, key), GetOrNull(a.arguments, key))
  }

  /** The first check of the target: it exists exactly when some check covers the target. */
  function FirstCover(checks: seq<Check>, a: Target): (r: Option<Check>)
    ensures r.Some? <==> exists c :: c in checks && CoversTarget(c, a)
    ensures r.Some? ==> r.value in checks && CoversTarget(r.value, a)
  {
    if checks == [] then None
    else if CoversTarget(checks[0], a) then Some(checks[0])
    else FirstCover(checks[1..], a)
  }

  /** A stop is verified by its own target being down, never as a recovery. */
  function StoppedCheck(c: Check, tool: string): Check {
    Check(c.tool, c.arguments,
          if TargetKey(tool) == "container" then [Field("state.running", JBool(false))]
          else [Field("state", JStr("inactive"))])
  }

  function VerificationChecks(t: Services, service: string, action: Option<Target>): Outcome<seq<Check>> {
    if service !in t then Refused(NoProfile)
    else if t[service].checks == [] then Refused(NoHealthChecks)
    else
      var checks := ChecksOf(t, Visit(t, service, Start()).order);
      if action.Some? then
        match FirstCover(checks, action.value)
        case None => Refused(TargetNotCovered)
        case Some(c) =>
          if StartsWith(action.value.tool, "stop_") then Ok([StoppedCheck(c, action.value.tool)])
          else Ok(Unique(checks))
      else Ok(Unique(checks))
  }

  ghost predicate ReachableCheck(t: Services, service: string, c: Check) {
    exists n :: Reaches(t, service, n) && c in ChecksAt(t, n)
  }

  lemma ChecksAreReachable(t: Services, service: string)
    requires service in t
    ensures forall c :: c in ChecksOf(t, Visit(t, service, Start()).order) <==> ReachableCheck(t, service, c)
  {
    forall c ensures c in ChecksOf(t, Visit(t, service, Start()).order) <==> ReachableCheck(t, service, c) {
      CheckIsReachable(t, service, c);
    }
  }

  lemma CheckIsReachable(t: Services, service: string, c: Check)
    requires service in t
    ensures c in ChecksOf(t, Visit(t, service, Start()).order) <==> ReachableCheck(t, service, c)
  {
    VisitIsReachable(t, service);
    var order := Visit(t, service, Start()).order;
    if ReachableCheck(t, service, c) {
      var n :| Reaches(t, service, n) && c in ChecksAt(t, n);
      assert n in Elements(order);
    }
    if c in ChecksOf(t, order) {
      var n :| n in order && c in ChecksAt(t, n);
      assert n in Elements(order);
    }
  }

  ghost predicate Verifiable(t: Services, service: string, action: Option<Target>) {
    && service in t && t[service].checks != []
    && (action.Some? ==> exists c :: ReachableCheck(t, service, c) && CoversTarget(c, action.value))
  }

  lemma UniqueTexts(checks: seq<Check>)
    ensures Distinct(Texts(Unique(checks))) && forall c :: c in checks ==> CheckText(c) in Texts(Unique(checks))
    ensures checks != [] ==> Unique(checks) != []
  {
    UniqueKeepsFirstTexts(checks);
    forall c | c in checks ensures CheckText(c) in Texts(Unique(checks)) {
      InTexts(checks, c);
    }
    if checks != [] {
      assert CheckText(checks[0]) in Texts(Unique(checks));
    }
  }

  /** Verification is refused exactly when the service has no checks of its own or no reachable
      check covers the target. */
  lemma VerifiableExactly(t: Services, service: string, action: Option<Target>)
    ensures VerificationChecks(t, service, action).Ok? <==> Verifiable(t, service, action)
  {
    if service in t && action.Some? { CoveredExactly(t, service, action.value); }
  }

  lemma CoveredExactly(t: Services, service: string, a: Target)
    requires service in t
    ensures FirstCover(ChecksOf(t, Visit(t, service, Start()).order), a).Some?
      <==> exists c :: ReachableCheck(t, service, c) && CoversTarget(c, a)
  {
    var found := FirstCover(ChecksOf(t, Visit(t, service, Start()).order), a);
    if found.Some? {
      CheckIsReachable(t, service, found.value);
    } else {
      forall c | ReachableCheck(t, service, c) ensures !CoversTarget(c, a) { CheckIsReachable(t, service, c); }
    }
  }

  /** For a start, a restart or no action, the checks are exactly those of the reachable services,
      each text once. */
  lemma RecoveryChecksAreReachableChecks(t: Services, service: string, action: Option<Target>)
    requires action.Some? ==> !StartsWith(action.value.tool, "stop_")
    requires VerificationChecks(t, service, action).Ok?
    ensures var r := VerificationChecks(t, service, action).value;
      && r != [] && Distinct(Texts(r))
      && (forall c :: c in r ==> ReachableCheck(t, service, c))
      && (forall c :: ReachableCheck(t, service, c) ==> CheckText(c) in Texts(r))
  {
    RecoveryValue(t, service, action);
    ChecksAreReachable(t, service);
    var checks := ChecksOf(t, Visit(t, service, Start()).order);
    UniqueTexts(checks);
    ReachesSelf(t, service);
    assert ReachableCheck(t, service, ChecksAt(t, service)[0]);
  }

  lemma RecoveryValue(t: Services, service: string, action: Option<Target>)
    requires action.Some? ==> !StartsWith(action.value.tool, "stop_")
    requires VerificationChecks(t, service, action).Ok?
    ensures service in t && ChecksAt(t, service) != []
    ensures VerificationChecks(t, service, action).value == Unique(ChecksOf(t, Visit(t, service, Start()).order))
  {
  }

  predicate IsOnlyCheck(t: Services, service: string, a: Target, c: Check) {
    VerificationChecks(t, service, Some(a)) == Ok([c])
  }

  /** The check inspects the very target of the stop. */
  predicate InspectsStopped(c: Check, tool: string, arguments: Json) {
    var key := if tool == "stop_container" then "container" else "service";
    && c.tool == (if tool == "stop_container" then "docker_inspect" else "service_status")
    && Same(GetOrNull(c.arguments, key), GetOrNull(arguments, key))
  }

  /** What a stop has to show: its container not running, or its unit inactive. */
  function Down(c: Check, tool: string): Check {
    Check(c.tool, c.arguments,
          [if tool == "stop_container" then Field("state.running", JBool(false)) else Field("state", JStr("inactive"))])
  }

  lemma CoversStopped(c: Check, tool: string, arguments: Json)
    requires tool == "stop_container" || tool == "stop_service"
    ensures CoversTarget(c, Target(tool, arguments)) <==> InspectsStopped(c, tool, arguments)
    ensures StoppedCheck(c, tool) == Down(c, tool)
  {
    assert tool[|tool| - 8] == '_' || tool[|tool| - 10..] == "_container";
  }

  /** A stop is checked by one check: the first of the reachable ones that inspects its own target, and what it
      has to show is that the target is down. */
  lemma StopIsOnlyCheckedAsAStop(t: Services, service: string, tool: string, arguments: Json) returns (i: nat)
    requires tool == "stop_container" || tool == "stop_service"
    requires VerificationChecks(t, service, Some(Target(tool, arguments))).Ok?
    ensures service in t
    ensures var all := ChecksOf(t, Visit(t, service, Start()).order);
      && i < |all| && ReachableCheck(t, service, all[i]) && InspectsStopped(all[i], tool, arguments)
      && (forall j :: 0 <= j < i ==> !InspectsStopped(all[j], tool, arguments))
      && IsOnlyCheck(t, service, Target(tool, arguments), Down(all[i], tool))
  {
    StopsByPrefix(tool);
    var all := ChecksOf(t, Visit(t, service, Start()).order);
    StopValue(t, service, Target(tool, arguments), FirstCover(all, Target(tool, arguments)));
    i := FirstCoverAt(all, Target(tool, arguments));
    CheckIsReachable(t, service, all[i]);
    CoversStopped(all[i], tool, arguments);
    forall j | 0 <= j < i ensures !InspectsStopped(all[j], tool, arguments) { CoversStopped(all[j], tool, arguments); }
  }

  lemma StopsByPrefix(tool: string)
    requires tool == "stop_container" || tool == "stop_service"
    ensures StartsWith(tool, "stop_")
  {
    assert tool[..5] == "stop_";
  }

  lemma StopValue(t: Services, service: string, a: Target, found: Option<Check>)
    requires StartsWith(a.tool, "stop_") && service in t && t[service].checks != []
    requires found == FirstCover(ChecksOf(t, Visit(t, service, Start()).order), a)
    ensures VerificationChecks(t, service, Some(a))
      == if found.Some? then Ok([StoppedCheck(found.value, a.tool)]) else Refused(TargetNotCovered)
  {
  }

  lemma {:induction false} FirstCoverAt(checks: seq<Check>, a: Target) returns (i: nat)
    requires FirstCover(checks, a).Some?
    ensures i < |checks| && FirstCover(checks, a) == Some(checks[i]) && CoversTarget(checks[i], a)
    ensures forall j :: 0 <= j < i ==> !CoversTarget(checks[j], a)
  {
    if CoversTarget(checks[0], a) {
      i := 0;
    } else {
      var k := FirstCoverAt(checks[1..], a);
      i := k + 1;
      forall j | 0 <= j < i ensures !CoversTarget(checks[j], a) {
        if j > 0 { assert checks[j] == checks[1..][j - 1]; }
      }
    }
  }

  // --- Dependency checks come before those of the services that need them ---

  lemma {:induction false} FurtherComesFirst(t: Services, order: seq<string>, i: nat, p: seq<string>)
    requires DependenciesFirst(t, order) && i < |order|
    requires Path(t, p) && |p| >= 2 && p[0] == order[i]
    ensures p[|p| - 1] in order[..i]
    decreases |p|
  {
    assert p[1] in Deps(t, p[0]);
    var j :| 0 <= j < i && order[..i][j] == p[1];
    if |p| > 2 {
      assert p[1..][|p| - 2] == p[|p| - 1];
      FurtherComesFirst(t, order, j, p[1..]);
    }
  }

  lemma TextsAppend(a: seq<Check>, b: seq<Check>)
    ensures Texts(a + b) == Texts(a) + Texts(b)
  {
  }

  /** Place `i` of the order is the first whose service has a check with this text. */
  predicate Owns(t: Services, order: seq<string>, text: string, i: nat) {
    i < |order| && text in Texts(ChecksAt(t, order[i])) && text !in Texts(ChecksOf(t, order[..i]))
  }

  lemma FirstOwner(t: Services, order: seq<string>, text: string) returns (i: nat)
    requires text in Texts(ChecksOf(t, order))
    ensures Owns(t, order, text, i)
    decreases |order|
  {
    assert order != [] by {
      assert |Texts(ChecksOf(t, []))| == 0;
    }
    var init := order[..|order| - 1];
    if text in Texts(ChecksOf(t, init)) {
      i := FirstOwner(t, init, text);
      OwnsInLonger(t, order, text, i);
    } else {
      i := |order| - 1;
      LastOwner(t, order, text);
    }
  }

  lemma OwnsInLonger(t: Services, order: seq<string>, text: string, i: nat)
    requires order != [] && Owns(t, order[..|order| - 1], text, i)
    ensures Owns(t, order, text, i)
  {
    assert order[..|order| - 1][..i] == order[..i];
  }

  lemma LastOwner(t: Services, order: seq<string>, text: string)
    requires order != [] && text in Texts(ChecksOf(t, order)) && text !in Texts(ChecksOf(t, order[..|order| - 1]))
    ensures Owns(t, order, text, |order| - 1)
  {
    TextsUnfold(t, order);
  }

  lemma TextsUnfold(t: Services, order: seq<string>)
    requires order != []
    ensures Texts(ChecksOf(t, order)) == Texts(ChecksOf(t, order[..|order| - 1]))
      + Texts(ChecksAt(t, order[|order| - 1]))
  {
    TextsAppend(ChecksOf(t, order[..|order| - 1]), ChecksAt(t, order[|order| - 1]));
  }

  /** Without cycles: when every reachable service that has check `c` depends on the service `n`
      of check `d`, then `d` is checked before `c`. */
  lemma DependencyChecksComeFirst(t: Services, service: string, action: Option<Target>, n: string, c: Check, d: Check)
    requires action.Some? ==> !StartsWith(action.value.tool, "stop_")
    requires Acyclic(t) && VerificationChecks(t, service, action).Ok?
    requires ReachableCheck(t, service, c) && Reaches(t, service, n) && d in ChecksAt(t, n)
    requires forall m :: Reaches(t, service, m) && CheckText(c) in Texts(ChecksAt(t, m)) ==> ReachesFurther(t, m, n)
    ensures var r := VerificationChecks(t, service, action).value;
      PositionOf(r, CheckText(d)) < PositionOf(r, CheckText(c)) < |r|
  {
    RecoveryValue(t, service, action);
    var order := Visit(t, service, Start()).order;
    var checks := ChecksOf(t, order);
    ChecksAreReachable(t, service);
    InTexts(checks, c);
    var i := FirstOwner(t, order, CheckText(c));
    OwnerFollows(t, service, i, n);
    ChecksOfPrefix(t, order, i);
    PrecedesAfterDeduplication(ChecksOf(t, order[..i]), checks, d, CheckText(c));
  }

  lemma OwnerFollows(t: Services, service: string, i: nat, n: string)
    requires Acyclic(t) && service in t && i < |Visit(t, service, Start()).order|
    requires forall m :: m == Visit(t, service, Start()).order[i] && Reaches(t, service, m) ==> ReachesFurther(t, m, n)
    ensures n in Visit(t, service, Start()).order[..i]
  {
    var order := Visit(t, service, Start()).order;
    DependenciesComeFirst(t, service);
    VisitIsReachable(t, service);
    assert order[i] in Elements(order);
    var p :| Path(t, p) && |p| >= 2 && p[0] == order[i] && p[|p| - 1] == n;
    FurtherComesFirst(t, order, i, p);
  }

  lemma PrecedesAfterDeduplication(before: seq<Check>, checks: seq<Check>, d: Check, c: string)
    requires before <= checks && d in before && c !in Texts(before) && c in Texts(checks)
    ensures PositionOf(Unique(checks), CheckText(d)) < PositionOf(Unique(checks), c) < |Unique(checks)|
  {
    InTexts(before, d);
    FirstTextsPrefix(before, checks[|before|..]);
    assert checks == before + checks[|before|..];
    UniqueKeepsFirstTexts(checks);
    PositionsInFirstTexts(checks, FirstTexts(before), CheckText(d), c);
  }

  lemma InTexts(checks: seq<Check>, c: Check)
    requires c in checks
    ensures CheckText(c) in Texts(checks)
  {
    var i :| 0 <= i < |checks| && checks[i] == c;
    assert Texts(checks)[i] == CheckText(c);
  }

  lemma PositionsInFirstTexts(checks: seq<Check>, head: seq<string>, a: string, b: string)
    requires head <= FirstTexts(checks) && Texts(Unique(checks)) == FirstTexts(checks)
    requires a in head && b !in head && b in Texts(checks)
    ensures PositionOf(Unique(checks), a) < PositionOf(Unique(checks), b) < |Unique(checks)|
  {
    PositionsSplit(Texts(Unique(checks)), head, a, b);
  }

  lemma PositionsSplit(texts: seq<string>, head: seq<string>, a: string, b: string)
    requires head <= texts && a in head && b !in head && b in texts
    ensures Position(texts, a) < Position(texts, b) < |texts|
  {
    var k :| 0 <= k < |head| && head[k] == a;
    assert texts[k] == a && texts[..|head|] == head;
    assert forall i :: 0 <= i < |head| ==> texts[i] in head;
  }

  // --- The recursive walk, with the fields it fills ---

  class CheckWalk {
    const services: Services
    var visited: set<string>
    var checks: seq<Check>

    constructor (services: Services)
      ensures this.services == services && visited == {} && checks == []
    {
      this.services := services;
      visited, checks := {}, [];
    }

    method Enter(name: string, ghost w: Walk)
      requires name in Nodes(services) && w.visited <= Nodes(services)
      requires visited == w.visited && checks == ChecksOf(services, w.order)
      modifies this
      ensures var r := Visit(services, name, w); visited == r.visited && checks == ChecksOf(services, r.order)
      decreases Nodes(services) - w.visited, 0
    {
      if name in visited {
        return;
      }
      visited := visited + {name};
      DepsAreNodes(services, name);
      ghost var deps := Deps(services, name);
      ghost var entered := w.(visited := w.visited + {name});
      ghost var v := entered;
      if name in services {
        var i := 0;
        while i < |services[name].dependsOn|
          invariant 0 <= i <= |deps| && entered.visited <= v.visited <= Nodes(services)
          invariant visited == v.visited && checks == ChecksOf(services, v.order)
          invariant VisitAll(services, deps[i..], v) == VisitAll(services, deps, entered)
        {
          assert deps[i..][0] == deps[i] && deps[i..][1..] == deps[i + 1..];
          Enter(services[name].dependsOn[i], v);
          v := Visit(services, deps[i], v);
          i := i + 1;
        }
        checks := checks + services[name].checks;
      }
      ghost var inner := VisitAll(services, deps, entered);
      assert v == inner;
      assert (inner.order + [name])[..|inner.order|] == inner.order;
    }
  }

  method Deduplicate(checks: seq<Check>) returns (unique: seq<Check>)
    ensures unique == Unique(checks)
  {
    unique := [];
    var i := 0;
    while i < |checks|
      invariant 0 <= i <= |checks| && unique == Unique(checks[..i])
    {
      assert checks[..i + 1][..i] == checks[..i];
      unique := Remember(unique, checks[i]);
      i := i + 1;
    }
    assert checks[..i] == checks;
  }

  method CollectChecks(t: Services, service: string, action: Option<Target>) returns (r: Outcome<seq<Check>>)
    ensures r == VerificationChecks(t, service, action)
  {
    if service !in t {
      return Refused(NoProfile);
    }
    if t[service].checks == [] {
      return Refused(NoHealthChecks);
    }
    var walk := new CheckWalk(t);
    walk.Enter(service, Start());
    var checks := walk.checks;
    if action.Some? {
      var covering := FirstCover(checks, action.value);
      if covering.None? {
        return Refused(TargetNotCovered);
      }
      if StartsWith(action.value.tool, "stop_") {
        return Ok([StoppedCheck(covering.value, action.value.tool)]);
      }
    }
    var unique := Deduplicate(checks);
    r := Ok(unique);
  }

  // --- check_application_health: the plan ---

  const PLAN_LIMIT: nat := 24

  function Owned(name: string, checks: seq<Check>): (r: seq<(string, Check)>)
    ensures forall p :: p in r <==> p.0 == name && p.1 in checks
  {
    if checks == [] then []
    else
      assert checks == [checks[0]] + checks[1..];
      [(name, checks[0])] + Owned(name, checks[1..])
  }

  /** The checks of every listed service, in order, each with its service. */
  function Plan(t: Services, names: seq<string>): (r: seq<(string, Check)>)
    ensures forall n, c :: (n, c) in r <==> n in names && c in ChecksAt(t, n)
  {
    if names == [] then []
    else
      var last := names[|names| - 1];
      assert names == names[..|names| - 1] + [last];
      Plan(t, names[..|names| - 1]) + Owned(last, ChecksAt(t, last))
  }

  lemma PlanUnfolds(t: Services, names: seq<string>, i: nat)
    requires i < |names|
    ensures Plan(t, names[..i + 1]) == Plan(t, names[..i]) + Owned(names[i], ChecksAt(t, names[i]))
  {
    assert names[..i + 1][..i] == names[..i];
  }

  method BuildPlan(t: Services, names: seq<string>) returns (plan: seq<(string, Check)>)
    ensures plan == Plan(t, names)
  {
    plan := [];
    var i := 0;
    while i < |names|
      invariant 0 <= i <= |names| && plan == Plan(t, names[..i])
    {
      PlanUnfolds(t, names, i);
      plan := plan + Owned(names[i], ChecksAt(t, names[i]));
      i := i + 1;
    }
    assert names[..i] == names;
  }

  method PlanApplication(t: Services, application: string) returns (r: Outcome<seq<(string, Check)>>)
    requires Closed(t)
    ensures application !in t || t[application].checks == [] ==> r == Refused(NoHealthChecks)
    ensures application in t && t[application].checks != [] ==>
      var plan := Plan(t, Preorder(t, application, []));
      r == if |plan| > 24 then Refused(PlanTooLarge) else Ok(plan)
  {
    if application !in t || t[application].checks == [] {
      return Refused(NoHealthChecks);
    }
    var walk := new NameWalk(t);
    assert t.Keys <= Nodes(t);
    walk.Enter(application);
    var plan := BuildPlan(t, walk.names);
    r := if |plan| > PLAN_LIMIT then Refused(PlanTooLarge) else Ok(plan);
  }

  /** Application health runs exactly the checks that recovery would require, service by service. */
  lemma HealthPlanIsTheRecoveryChecks(t: Services, application: string, c: Check)
    requires Closed(t) && application in t
    ensures (exists n :: (n, c) in Plan(t, Preorder(t, application, []))) <==> ReachableCheck(t, application, c)
  {
    AllWalksCoverTheSameServices(t, application);
    VisitIsReachable(t, application);
    var names := Preorder(t, application, []);
    assert forall n :: n in names <==> n in Elements(names);
    if ReachableCheck(t, application, c) {
      var n :| Reaches(t, application, n) && c in ChecksAt(t, n);
      assert (n, c) in Plan(t, names);
    }
  }
}
