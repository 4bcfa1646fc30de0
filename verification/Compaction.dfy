/** compact_context: fitting the model's context into its character budget. */
module Compaction {
  import opened Arithmetic
  import opened JsonValues
  import opened JsonSize
  import opened Sampling
  import opened Abbreviation
  import Schema
  import Narrowing

  datatype Entry = Entry(tool: Narrowing.Tool, description: Json, rest: seq<Field>)

  datatype Observation = Observation(
    id: string, step: int, tool: string, arguments: Json, result: seq<Field>, ok: Json, interpretation: string,
    remediation: bool)

  datatype Hypothesis = Hypothesis(description: string, rest: seq<Field>)

  datatype Incident = Incident(id: string, title: string, description: string, service: string)

  datatype Context = Context(
    incident: Incident, tools: seq<Entry>, topology: Json, incidents: seq<Json>, runbooks: seq<Json>,
    observations: seq<Observation>, hypotheses: seq<Hypothesis>, feedback: string, remaining: Json, autonomous: bool,
    compacted: bool)

  datatype Failure = ConstraintsTooLarge | TooLarge

  datatype Outcome = Fits(value: Context) | Fails(failure: Failure)

  // --- The JSON document whose size is budgeted ---

  function EntryJson(e: Entry): Json {
    JObj([Field("name", JStr(e.tool.name)), Field("description", e.description), Field("risk_level", JStr(e.tool.risk)),
          Field("parameters", e.tool.parameters)] + e.rest)
  }

  function ObservationFields(o: Observation): seq<Field> {
    [Field("id", JStr(o.id)), Field("step_number", JInt(o.step)), Field("tool_name", JStr(o.tool)),
     Field("tool_arguments", o.arguments),
     Field("result", JObj(o.result)), Field("ok", o.ok), Field("interpretation", JStr(o.interpretation))]
    + if o.remediation then [Field("phase", JStr("REMEDIATION"))] else []
  }

  function HypothesisJson(h: Hypothesis): Json {
    JObj([Field("description", JStr(h.description))] + h.rest)
  }

  function EntriesJson(tools: seq<Entry>): seq<Json> {
    if tools == [] then [] else [EntryJson(tools[0])] + EntriesJson(tools[1..])
  }

  function ObservationsJson(observations: seq<Observation>): seq<Json> {
    if observations == [] then [] else [JObj(ObservationFields(observations[0]))] + ObservationsJson(observations[1..])
  }

  function HypothesesJson(hypotheses: seq<Hypothesis>): seq<Json> {
    if hypotheses == [] then [] else [HypothesisJson(hypotheses[0])] + HypothesesJson(hypotheses[1..])
  }

  const NOTE := "Some bulky results are summarized; all observation IDs are retained. Full evidence remains persisted."

  function ContextFields(c: Context): seq<Field> {
    [Field("incident", JObj([Field("id", JStr(c.incident.id)), Field("title", JStr(c.incident.title)),
                             Field("description", JStr(c.incident.description)),
                             Field("service", JStr(c.incident.service))])),
     Field("tools", JArr(EntriesJson(c.tools))), Field("topology", c.topology),
     Field("retrieved_incidents", JArr(c.incidents)), Field("retrieved_runbooks", JArr(c.runbooks)),
     Field("observations", JArr(ObservationsJson(c.observations))),
     Field("hypotheses", JArr(HypothesesJson(c.hypotheses))), Field("validation_feedback", JStr(c.feedback)),
     Field("remaining_steps", c.remaining), Field("autonomous_actions_enabled", JBool(c.autonomous))]
    + if c.compacted then [Field("context_compacted", JStr(NOTE))] else []
  }

  function ContextSize(c: Context): nat {
    Size(JObj(ContextFields(c)))
  }

  // --- What compaction does to everything but the results ---

  function CompactEntry(e: Entry): Entry {
    Entry(e.tool.(parameters := Schema.CompactSchema(e.tool.parameters)),
          if e.description.JStr? then JStr(Clipped(e.description.s, 90)) else e.description, e.rest)
  }

  function CompactEntries(tools: seq<Entry>): seq<Entry> {
    if tools == [] then [] else [CompactEntry(tools[0])] + CompactEntries(tools[1..])
  }

  const DISPLAY: set<string> := {"name", "tags", "overview", "public_urls", "local_health_urls"}

  function WithoutDisplay(fields: seq<Field>): seq<Field> {
    if fields == [] then [] else (if fields[0].key in DISPLAY then [] else [fields[0]]) + WithoutDisplay(fields[1..])
  }

  /** The fields of a service with its description clipped. */
  function Described(fields: seq<Field>): seq<Field> {
    match Lookup(JObj(fields), "description")
    case Some(JStr(s)) => Put(fields, "description", JStr(Clipped(s, 120)))
    case _ => fields
  }

  function TrimService(service: Json): Json {
    match service
    case JObj(fields) =>
      JObj(WithoutDisplay(Described(fields)))
    case _ => service
  }

  function TrimServices(services: seq<Field>): seq<Field> {
    if services == [] then []
    else [Field(services[0].key, TrimService(services[0].value))] + TrimServices(services[1..])
  }

  function TrimTopology(topology: Json): Json {
    match Lookup(topology, "services")
    case Some(JObj(services)) => JObj(Put(topology.fields, "services", JObj(TrimServices(services))))
    case _ => topology
  }

  function TrimHypotheses(hypotheses: seq<Hypothesis>): seq<Hypothesis> {
    if hypotheses == [] then []
    else [hypotheses[0].(description := Clipped(hypotheses[0].description, 250))] + TrimHypotheses(hypotheses[1..])
  }

  function TrimRetrieved(text: Text, items: seq<Json>): seq<Json> {
    Sampled(text, JArr(items[..Min(|items|, 2)]), 600, 3, 0).items
  }

  /** An observation without its result. */
  function Blank(o: Observation): Observation {
    o.(result := [], interpretation := Clipped(o.interpretation, 180))
  }

  function Blanks(observations: seq<Observation>): (r: seq<Observation>)
    ensures |r| == |observations|
    ensures forall i :: 0 <= i < |r| ==> r[i] == Blank(observations[i])
  {
    if observations == [] then [] else [Blank(observations[0])] + Blanks(observations[1..])
  }

  /** Everything compacted, every result taken out. */
  function Stripped(text: Text, c: Context): Context {
    Context(c.incident.(description := Clipped(c.incident.description, 1200)), CompactEntries(c.tools),
      TrimTopology(c.topology),
            TrimRetrieved(text, c.incidents), TrimRetrieved(text, c.runbooks), Blanks(c.observations),
            TrimHypotheses(c.hypotheses), c.feedback, c.remaining, c.autonomous, true)
  }

  /** Current observations take precedence over historical guidance. */
  function Skeleton(text: Text, c: Context, budget: int): Context {
    var s := Stripped(text, c);
    if ContextSize(s) > budget - 128 * |c.observations| then s.(incidents := [], runbooks := []) else s
  }

  function Available(text: Text, c: Context, budget: int): int {
    budget - ContextSize(Skeleton(text, c, budget)) - 32
  }

  // --- Sharing what is left among the results ---

  function Weight(o: Observation): int {
    Min(1800, Max(100, Size(JObj(o.result))))
  }

  function TotalWeight(observations: seq<Observation>): nat {
    if observations == [] then 0 else Weight(observations[0]) + TotalWeight(observations[1..])
  }

  function Weighted(observations: seq<Observation>, available: nat, total: int): seq<int>
    requires total > 0
  {
    if observations == [] then []
    else [Max(100, available * Weight(observations[0]) / total)] + Weighted(observations[1..], available, total)
  }

  function Equal(n: nat, each: int): seq<int> {
    if n == 0 then [] else [each] + Equal(n - 1, each)
  }

  function Refill(text: Text, original: Observation, blank: Observation, share: int): Observation {
    blank.(result := CompactResult(text, original.result, share, blank.interpretation))
  }

  function Filled(text: Text, originals: seq<Observation>, blanks: seq<Observation>,
                  shares: seq<int>): (r: seq<Observation>)
    requires |originals| == |blanks| == |shares|
    ensures |r| == |originals|
    ensures forall i :: 0 <= i < |r| ==> r[i] == Refill(text, originals[i], blanks[i], shares[i])
  {
    if originals == [] then []
    else [Refill(text, originals[0], blanks[0], shares[0])] + Filled(text, originals[1..], blanks[1..], shares[1..])
  }

  lemma {:induction false} SharesLength(observations: seq<Observation>, available: nat, total: int, each: int)
    requires total > 0
    ensures |Weighted(observations, available, total)| == |observations| == |Equal(|observations|, each)|
    ensures forall i :: 0 <= i < |observations| ==> Equal(|observations|, each)[i] == each
  {
    if observations != [] { SharesLength(observations[1..], available, total, each); }
  }

  function FirstPass(text: Text, c: Context, budget: int): Context
    requires Available(text, c, budget) >= 0
  {
    var s, available := Skeleton(text, c, budget), Available(text, c, budget);
    var total := if TotalWeight(c.observations) == 0 then 1 else TotalWeight(c.observations);
    SharesLength(c.observations, available, total, 0);
    s.(observations := Filled(text, c.observations, s.observations, Weighted(c.observations, available, total)))
  }

  function EqualPass(text: Text, c: Context, budget: int): Context
    requires Available(text, c, budget) >= 0
  {
    var s, each := Skeleton(text, c, budget), Available(text, c, budget) / Max(1, |c.observations|);
    SharesLength(c.observations, 0, 1, each);
    s.(observations := Filled(text, c.observations, s.observations, Equal(|c.observations|, each)))
  }

  function Compacted(text: Text, c: Context, budget: int): Outcome {
    if ContextSize(c) <= budget then Fits(c)
    else if Available(text, c, budget) < 100 * |c.observations| then Fails(ConstraintsTooLarge)
    else if ContextSize(FirstPass(text, c, budget)) <= budget then Fits(FirstPass(text, c, budget))
    else if ContextSize(EqualPass(text, c, budget)) <= budget then Fits(EqualPass(text, c, budget))
    else Fails(TooLarge)
  }

  // --- The size of a context is its skeleton plus its results ---

  function ResultSizes(observations: seq<Observation>): nat {
    if observations == [] then 0 else Size(JObj(observations[0].result)) + ResultSizes(observations[1..])
  }

  ghost predicate SameButResults(a: seq<Observation>, b: seq<Observation>) {
    |a| == |b| && forall i :: 0 <= i < |a| ==> b[i] == a[i].(result := b[i].result)
  }

  lemma ObservationSize(o: Observation, r: seq<Field>)
    ensures Size(JObj(ObservationFields(o.(result := r)))) + Size(JObj(o.result)) == Size(JObj(ObservationFields(o)))
      + Size(JObj(r))
  {
    var a, b := ObservationFields(o), ObservationFields(o.(result := r));
    assert b == a[4 := Field("result", JObj(r))];
    ReplacedFieldSize(a, 4, JObj(r));
    ObjectSize(a);
    ObjectSize(b);
  }

  lemma {:induction false} ObservationsSize(a: seq<Observation>, b: seq<Observation>)
    requires SameButResults(a, b)
    ensures ItemsSize(ObservationsJson(b)) + ResultSizes(a) == ItemsSize(ObservationsJson(a)) + ResultSizes(b)
    ensures |ObservationsJson(a)| == |a| && |ObservationsJson(b)| == |b|
  {
    if a != [] {
      ObservationSize(a[0], b[0].result);
      ObservationsSize(a[1..], b[1..]);
    }
  }

  lemma ArrayInObject(a: seq<Field>, i: nat, x: seq<Json>, y: seq<Json>)
    requires i < |a| && a[i].value == JArr(x) && |x| == |y|
    ensures Size(JObj(a[i := Field(a[i].key, JArr(y))])) + ItemsSize(x) == Size(JObj(a)) + ItemsSize(y)
  {
    ReplacedFieldSize(a, i, JArr(y));
    ObjectSize(a);
    ObjectSize(a[i := Field(a[i].key, JArr(y))]);
    ArraySize(x);
    ArraySize(y);
  }

  lemma ObservationsField(c: Context, observations: seq<Observation>)
    ensures |ContextFields(c)| > 5
      && ContextFields(c)[5] == Field("observations", JArr(ObservationsJson(c.observations)))
    ensures ContextFields(c.(observations := observations))
      == ContextFields(c)[5 := Field("observations", JArr(ObservationsJson(observations)))]
  {
  }

  lemma ResultsAddUp(c: Context, observations: seq<Observation>)
    requires SameButResults(c.observations, observations)
    ensures ContextSize(c.(observations := observations)) + ResultSizes(c.observations) == ContextSize(c)
      + ResultSizes(observations)
  {
    ObservationsSize(c.observations, observations);
    ObservationsField(c, observations);
    ArrayInObject(ContextFields(c), 5, ObservationsJson(c.observations), ObservationsJson(observations));
  }

  lemma {:induction false} BlankSizes(observations: seq<Observation>)
    requires forall i :: 0 <= i < |observations| ==> observations[i].result == []
    ensures ResultSizes(observations) == 2 * |observations|
  {
    if observations != [] {
      ObjectSize([]);
      BlankSizes(observations[1..]);
    }
  }

  lemma {:induction false} BoundedSizes(observations: seq<Observation>, each: nat)
    requires forall i :: 0 <= i < |observations| ==> Size(JObj(observations[i].result)) <= each
    ensures ResultSizes(observations) <= |observations| * each
  {
    if observations != [] {
      BoundedSizes(observations[1..], each);
      assert |observations| * each == each + (|observations| - 1) * each;
    }
  }

  /** After a pass the context is the skeleton, less the empty results, plus the filled ones. */
  lemma PassSize(s: Context, filled: seq<Observation>)
    requires SameButResults(s.observations, filled)
    requires forall i :: 0 <= i < |s.observations| ==> s.observations[i].result == []
    ensures ContextSize(s.(observations := filled)) == ContextSize(s) - 2 * |filled| + ResultSizes(filled)
  {
    BlankSizes(s.observations);
    ResultsAddUp(s, filled);
  }

  // --- The equal-share pass always fits ---

  /** No interpretation needs more than 17 characters of escapes once it is clipped. */
  predicate PlainInterpretations(c: Context) {
    forall i | 0 <= i < |c.observations| :: Overhead(Clipped(c.observations[i].interpretation, 180)) <= 17
  }

  lemma ShareFloor(available: nat, n: nat)
    requires available >= 100 * n
    ensures n * (available / Max(1, n)) <= available
    ensures n > 0 ==> available / Max(1, n) >= 100
  {
    if n > 0 {
      var q := available / n;
      assert available == n * q + available % n;
      assert q <= 99 ==> n * q <= n * 99;
    }
  }

  lemma SkeletonObservations(text: Text, c: Context, budget: int)
    ensures Skeleton(text, c, budget).observations == Blanks(c.observations)
  {
  }

  /** Once the identities are known to fit, the last error cannot be reached: the equal-share pass
      leaves at least 32 characters of the budget unused. */
  lemma EqualPassFits(text: Text, c: Context, budget: int)
    requires Available(text, c, budget) >= 100 * |c.observations| && PlainInterpretations(c)
    ensures ContextSize(EqualPass(text, c, budget)) <= budget - 32
  {
    var s, n := Skeleton(text, c, budget), |c.observations|;
    var available := Available(text, c, budget);
    var each := available / Max(1, n);
    SharesLength(c.observations, 0, 1, each);
    ShareFloor(available, n);
    SkeletonObservations(text, c, budget);
    EqualFilled(text, c, s.observations, each);
    PassSize(s, Filled(text, c.observations, s.observations, Equal(n, each)));
  }

  lemma EqualFilled(text: Text, c: Context, blanks: seq<Observation>, each: nat)
    requires blanks == Blanks(c.observations) && PlainInterpretations(c) && (|blanks| > 0 ==> each >= 37)
    requires |Equal(|blanks|, each)| == |blanks| && forall i :: 0 <= i < |blanks| ==> Equal(|blanks|, each)[i] == each
    ensures var filled := Filled(text, c.observations, blanks, Equal(|blanks|, each));
      SameButResults(blanks, filled) && ResultSizes(filled) <= |blanks| * each
  {
    var filled := Filled(text, c.observations, blanks, Equal(|blanks|, each));
    forall i | 0 <= i < |filled| ensures Size(JObj(filled[i].result)) <= each {
      CompactResultFits(text, c.observations[i].result, each, blanks[i].interpretation);
    }
    BoundedSizes(filled, each);
  }

  /** The guard on the identities is the only way to fail, and it says when. */
  lemma CompactionFailsOnlyOnConstraints(text: Text, c: Context, budget: int)
    requires PlainInterpretations(c)
    ensures Compacted(text, c, budget).Fails? <==>
      ContextSize(c) > budget && Available(text, c, budget) < 100 * |c.observations|
    ensures Compacted(text, c, budget) != Fails(TooLarge)
  {
    FailsExactly(text, c, budget);
    if Available(text, c, budget) >= 100 * |c.observations| { EqualPassFits(text, c, budget); }
  }

  /** The two errors, by their guards. */
  lemma FailsExactly(text: Text, c: Context, budget: int)
    ensures Compacted(text, c, budget) == Fails(ConstraintsTooLarge) <==>
      ContextSize(c) > budget && Available(text, c, budget) < 100 * |c.observations|
    ensures Compacted(text, c, budget) == Fails(TooLarge) ==>
      Available(text, c, budget) >= 100 * |c.observations| && ContextSize(EqualPass(text, c, budget)) > budget
  {
  }

  // --- What compaction keeps ---

  /** Which tool ran, with which arguments, and whether it was a write: all of this survives, with
      every id, in order. */
  ghost predicate KeepsObservations(c: Context, d: Context) {
    && |d.observations| == |c.observations|
    && forall i :: 0 <= i < |c.observations| ==>
        d.observations[i] == c.observations[i].(result := d.observations[i].result,
          interpretation := d.observations[i].interpretation)
  }

  ghost predicate KeepsTools(c: Context, d: Context) {
    && |d.tools| == |c.tools|
    && forall i :: 0 <= i < |c.tools| ==>
        d.tools[i] == c.tools[i].(tool :=
          c.tools[i].tool.(parameters := Schema.CompactSchema(c.tools[i].tool.parameters)),
                                  description := d.tools[i].description)
  }

  lemma {:induction false} CompactEntriesAt(tools: seq<Entry>)
    ensures |CompactEntries(tools)| == |tools|
    ensures forall i :: 0 <= i < |tools| ==> CompactEntries(tools)[i] == CompactEntry(tools[i])
  {
    if tools != [] { CompactEntriesAt(tools[1..]); }
  }

  lemma SkeletonKeeps(text: Text, c: Context, budget: int, observations: seq<Observation>)
    requires |observations| == |c.observations|
    requires forall i :: 0 <= i < |observations| ==>
      observations[i] == Blank(c.observations[i]).(result := observations[i].result)
    ensures var d := Skeleton(text, c, budget).(observations := observations);
      KeepsObservations(c, d) && KeepsTools(c, d) && d.topology == TrimTopology(c.topology)
        && d.incident.service == c.incident.service
  {
    CompactEntriesAt(c.tools);
    SkeletonTools(text, c, budget);
  }

  lemma SkeletonTools(text: Text, c: Context, budget: int)
    ensures Skeleton(text, c, budget).tools == CompactEntries(c.tools)
    ensures Skeleton(text, c, budget).topology == TrimTopology(c.topology)
    ensures Skeleton(text, c, budget).incident.service == c.incident.service
  {
  }

  /** The passes fill the skeleton and touch nothing else. */
  lemma PassesKeep(text: Text, c: Context, budget: int)
    requires Available(text, c, budget) >= 100 * |c.observations|
    ensures KeepsObservations(c, FirstPass(text, c, budget)) && KeepsTools(c, FirstPass(text, c, budget))
    ensures KeepsObservations(c, EqualPass(text, c, budget)) && KeepsTools(c, EqualPass(text, c, budget))
    ensures FirstPass(text, c, budget).topology == EqualPass(text, c, budget).topology == TrimTopology(c.topology)
  {
    FirstPassKeeps(text, c, budget);
    EqualPassKeeps(text, c, budget);
  }

  lemma FirstPassKeeps(text: Text, c: Context, budget: int)
    requires Available(text, c, budget) >= 0
    ensures var d := FirstPass(text, c, budget);
      KeepsObservations(c, d) && KeepsTools(c, d) && d.topology == TrimTopology(c.topology)
  {
    SkeletonObservations(text, c, budget);
    SkeletonKeeps(text, c, budget, FirstPass(text, c, budget).observations);
  }

  lemma EqualPassKeeps(text: Text, c: Context, budget: int)
    requires Available(text, c, budget) >= 0
    ensures var d := EqualPass(text, c, budget);
      KeepsObservations(c, d) && KeepsTools(c, d) && d.topology == TrimTopology(c.topology)
  {
    SkeletonObservations(text, c, budget);
    SkeletonKeeps(text, c, budget, EqualPass(text, c, budget).observations);
  }

  // --- What the compacted context still tells ---

  /** Every observation is told within a share of at least 100 characters, and a larger result has no smaller
      share; its interpretation is clipped. */
  ghost predicate TellsObservations(text: Text, c: Context, d: Context) {
    |d.observations| == |c.observations| && exists shares: seq<int> ::
      Shared(text, c.observations, d.observations, shares)
  }

  ghost predicate Shared(text: Text, before: seq<Observation>, after: seq<Observation>, shares: seq<int>)
    requires |before| == |after|
  {
    && |shares| == |before| && FairShares(before, shares)
    && forall i | 0 <= i < |before| ::
         && ClippedTo(before[i].interpretation, 180, after[i].interpretation)
         && Tells(text, before[i].result, after[i].result, shares[i], after[i].interpretation)
  }

  predicate FairShares(observations: seq<Observation>, shares: seq<int>)
    requires |shares| == |observations|
  {
    && (forall i | 0 <= i < |shares| :: shares[i] >= 100)
    && forall i, j | 0 <= i < |shares| && 0 <= j < |shares| ::
         Size(JObj(observations[i].result)) <= Size(JObj(observations[j].result)) ==> shares[i] <= shares[j]
  }

  /** Of retrieved guidance the first two entries are told, or nothing. */
  ghost predicate TellsGuidance(text: Text, before: seq<Json>, after: seq<Json>) {
    after == [] || Abbreviates(text, JArr(before[..Min(|before|, 2)]), JArr(after), 600, 3, 0)
  }

  /** Everything else is as it was, its long descriptions clipped. */
  ghost predicate TellsRest(text: Text, c: Context, d: Context) {
    && d.incident == c.incident.(description := d.incident.description)
    && ClippedTo(c.incident.description, 1200, d.incident.description)
    && |d.tools| == |c.tools|
    && (forall i | 0 <= i < |c.tools| :: TellsDescription(c.tools[i].description, d.tools[i].description))
    && |d.hypotheses| == |c.hypotheses|
    && (forall i | 0 <= i < |c.hypotheses| ::
          && d.hypotheses[i].rest == c.hypotheses[i].rest
          && ClippedTo(c.hypotheses[i].description, 250, d.hypotheses[i].description))
    && d.feedback == c.feedback && d.remaining == c.remaining && d.autonomous == c.autonomous && d.compacted
    && TellsGuidance(text, c.incidents, d.incidents) && TellsGuidance(text, c.runbooks, d.runbooks)
  }

  predicate TellsDescription(before: Json, after: Json) {
    if before.JStr? then after.JStr? && ClippedTo(before.s, 90, after.s) else after == before
  }

  lemma {:induction false} HypothesesAt(hypotheses: seq<Hypothesis>)
    ensures |TrimHypotheses(hypotheses)| == |hypotheses|
    ensures forall i :: 0 <= i < |hypotheses| ==>
      TrimHypotheses(hypotheses)[i] == hypotheses[i].(description := Clipped(hypotheses[i].description, 250))
  {
    if hypotheses != [] { HypothesesAt(hypotheses[1..]); }
  }

  lemma RetrievedTells(text: Text, items: seq<Json>)
    ensures TellsGuidance(text, items, TrimRetrieved(text, items))
  {
    SampledTells(text, JArr(items[..Min(|items|, 2)]), 600, 3, 0);
  }

  lemma SkeletonTells(text: Text, c: Context, budget: int, observations: seq<Observation>)
    ensures TellsRest(text, c, Skeleton(text, c, budget).(observations := observations))
  {
    ClippedTells(c.incident.description, 1200);
    EntriesTell(c.tools);
    HypothesesTell(c.hypotheses);
    RetrievedTells(text, c.incidents);
    RetrievedTells(text, c.runbooks);
    SkeletonRest(text, c, budget);
  }

  lemma EntriesTell(tools: seq<Entry>)
    ensures |CompactEntries(tools)| == |tools|
    ensures forall i :: 0 <= i < |tools| ==>
      TellsDescription(tools[i].description, CompactEntries(tools)[i].description)
  {
    CompactEntriesAt(tools);
    forall i | 0 <= i < |tools| ensures TellsDescription(tools[i].description, CompactEntries(tools)[i].description) {
      if tools[i].description.JStr? { ClippedTells(tools[i].description.s, 90); }
    }
  }

  lemma HypothesesTell(hypotheses: seq<Hypothesis>)
    ensures |TrimHypotheses(hypotheses)| == |hypotheses|
    ensures forall i :: 0 <= i < |hypotheses| ==>
      && TrimHypotheses(hypotheses)[i].rest == hypotheses[i].rest
      && ClippedTo(hypotheses[i].description, 250, TrimHypotheses(hypotheses)[i].description)
  {
    HypothesesAt(hypotheses);
    forall i | 0 <= i < |hypotheses|
      ensures ClippedTo(hypotheses[i].description, 250, Clipped(hypotheses[i].description, 250))
    {
      ClippedTells(hypotheses[i].description, 250);
    }
  }

  lemma SkeletonRest(text: Text, c: Context, budget: int)
    ensures var s := Skeleton(text, c, budget);
      && s.incident == c.incident.(description := Clipped(c.incident.description, 1200))
      && s.tools == CompactEntries(c.tools) && s.hypotheses == TrimHypotheses(c.hypotheses)
      && s.feedback == c.feedback && s.remaining == c.remaining && s.autonomous == c.autonomous && s.compacted
      && (s.incidents == [] || s.incidents == TrimRetrieved(text, c.incidents))
      && (s.runbooks == [] || s.runbooks == TrimRetrieved(text, c.runbooks))
  {
  }

  lemma FilledTells(text: Text, originals: seq<Observation>, blanks: seq<Observation>, shares: seq<int>)
    requires |originals| == |blanks| == |shares| && FairShares(originals, shares)
    requires forall i :: 0 <= i < |blanks| ==> blanks[i] == Blank(originals[i])
    ensures Shared(text, originals, Filled(text, originals, blanks, shares), shares)
  {
    forall i | 0 <= i < |originals|
      ensures var o := Filled(text, originals, blanks, shares)[i];
        && ClippedTo(originals[i].interpretation, 180, o.interpretation)
        && Tells(text, originals[i].result, o.result, shares[i], o.interpretation)
    {
      ClippedTells(originals[i].interpretation, 180);
      CompactResultTells(text, originals[i].result, shares[i], Clipped(originals[i].interpretation, 180));
    }
  }

  lemma DivideMonotone(a: int, x: int, y: int, total: int)
    requires a >= 0 && x <= y && total > 0
    ensures a * x / total <= a * y / total
  {
    assert a * x <= a * y by { ProductMonotone(a, x, y); }
    QuotientMonotone(a * x, a * y, total);
  }

  lemma ProductMonotone(a: int, x: int, y: int)
    requires a >= 0 && x <= y
    ensures a * x <= a * y
  {
    assert a * y - a * x == a * (y - x);
  }

  lemma QuotientMonotone(x: int, y: int, total: int)
    requires x <= y && total > 0
    ensures x / total <= y / total
  {
    var p, q := x / total, y / total;
    assert x == total * p + x % total && y == total * q + y % total;
    if p > q { ProductMonotone(total, q + 1, p); }
  }

  lemma {:induction false} WeightedAt(observations: seq<Observation>, available: nat, total: int)
    requires total > 0
    ensures |Weighted(observations, available, total)| == |observations|
    ensures forall i :: 0 <= i < |observations| ==>
      Weighted(observations, available, total)[i] == Max(100, available * Weight(observations[i]) / total)
  {
    if observations != [] { WeightedAt(observations[1..], available, total); }
  }

  lemma WeightedIsFair(observations: seq<Observation>, available: nat, total: int)
    requires total > 0
    ensures |Weighted(observations, available, total)| == |observations|
    ensures FairShares(observations, Weighted(observations, available, total))
  {
    WeightedAt(observations, available, total);
    forall i, j | 0 <= i < |observations| && 0 <= j < |observations|
      && Size(JObj(observations[i].result)) <= Size(JObj(observations[j].result))
      ensures Weighted(observations, available, total)[i] <= Weighted(observations, available, total)[j]
    {
      assert Weight(observations[i]) <= Weight(observations[j]);
      DivideMonotone(available, Weight(observations[i]), Weight(observations[j]), total);
    }
  }

  lemma FirstPassTells(text: Text, c: Context, budget: int)
    requires Available(text, c, budget) >= 0
    ensures var d := FirstPass(text, c, budget); TellsObservations(text, c, d) && TellsRest(text, c, d)
  {
    var s, available := Skeleton(text, c, budget), Available(text, c, budget);
    var total := if TotalWeight(c.observations) == 0 then 1 else TotalWeight(c.observations);
    SkeletonObservations(text, c, budget);
    WeightedIsFair(c.observations, available, total);
    FilledTells(text, c.observations, s.observations, Weighted(c.observations, available, total));
    SkeletonTells(text, c, budget, FirstPass(text, c, budget).observations);
  }

  lemma EqualPassTells(text: Text, c: Context, budget: int)
    requires Available(text, c, budget) >= 100 * |c.observations|
    ensures var d := EqualPass(text, c, budget); TellsObservations(text, c, d) && TellsRest(text, c, d)
  {
    var s, n := Skeleton(text, c, budget), |c.observations|;
    var each := Available(text, c, budget) / Max(1, n);
    SkeletonObservations(text, c, budget);
    SharesLength(c.observations, 0, 1, each);
    ShareFloor(Available(text, c, budget), n);
    FilledTells(text, c.observations, s.observations, Equal(n, each));
    SkeletonTells(text, c, budget, EqualPass(text, c, budget).observations);
  }

  ghost predicate Keeps(text: Text, c: Context, d: Context) {
    && KeepsObservations(c, d) && KeepsTools(c, d) && d.topology == TrimTopology(c.topology)
    && TellsObservations(text, c, d) && TellsRest(text, c, d)
  }

  /** A context that fits is returned untouched; any other success loses no observation and no tool, keeps the
      constraints of every tool, tells the truth about every result, and stays within the budget. */
  lemma CompactionKeeps(text: Text, c: Context, budget: int)
    ensures var r := Compacted(text, c, budget);
      if ContextSize(c) <= budget then r == Fits(c)
      else r.Fits? ==> ContextSize(r.value) <= budget && Keeps(text, c, r.value)
  {
    SuccessIsAPass(text, c, budget);
    if Available(text, c, budget) >= 100 * |c.observations| {
      PassesKeep(text, c, budget);
      FirstPassTells(text, c, budget);
      EqualPassTells(text, c, budget);
    }
  }

  /** Success is the context itself, or a pass that fits. */
  lemma SuccessIsAPass(text: Text, c: Context, budget: int)
    ensures ContextSize(c) <= budget ==> Compacted(text, c, budget) == Fits(c)
    ensures ContextSize(c) > budget && Compacted(text, c, budget).Fits? ==>
      var d := Compacted(text, c, budget).value;
      && Available(text, c, budget) >= 100 * |c.observations| && ContextSize(d) <= budget
      && (d == FirstPass(text, c, budget) || d == EqualPass(text, c, budget))
  {
  }

  /** What narrowing reads of the observations in a context. */
  function SeenIn(observations: seq<Observation>): (r: seq<Narrowing.Seen>)
    ensures |r| == |observations|
    ensures forall i :: 0 <= i < |r| ==>
      r[i] == Narrowing.Seen(observations[i].tool, observations[i].arguments, observations[i].remediation)
  {
    seq(|observations|, i requires 0 <= i < |observations| =>
      Narrowing.Seen(observations[i].tool, observations[i].arguments, observations[i].remediation))
  }

  /** Narrowing sees the same observations in the compacted context as in the original. */
  lemma CompactionKeepsSeen(text: Text, c: Context, budget: int)
    requires Compacted(text, c, budget).Fits?
    ensures SeenIn(Compacted(text, c, budget).value.observations) == SeenIn(c.observations)
  {
    CompactionKeeps(text, c, budget);
    if ContextSize(c) > budget { SeenAlike(c, Compacted(text, c, budget).value); }
  }

  lemma SeenAlike(c: Context, d: Context)
    requires KeepsObservations(c, d)
    ensures SeenIn(d.observations) == SeenIn(c.observations)
  {
    assert forall i :: 0 <= i < |c.observations| ==> SeenIn(d.observations)[i] == SeenIn(c.observations)[i];
  }

  /** The service of this name in a topology. */
  function ServiceIn(topology: Json, name: string): Option<Json> {
    match Lookup(topology, "services")
    case Some(services) => Lookup(services, name)
    case None => None
  }

  /** What a service says under a key: display keys go, a description that is text is clipped, and everything
      else stays as it was. */
  predicate ServiceTold(before: Json, after: Json, key: string) {
    if key in DISPLAY then before.JObj? ==> Lookup(after, key) == None
    else if key == "description" && Lookup(before, key).Some? && Lookup(before, key).value.JStr? then
      && Lookup(after, key).Some? && Lookup(after, key).value.JStr?
      && ClippedTo(Lookup(before, key).value.s, 120, Lookup(after, key).value.s)
    else Lookup(after, key) == Lookup(before, key)
  }

  /** The dependency graph survives compaction: the topology has the same services, and each keeps
      its edges, its health checks and everything else but the display keys and its description. */
  lemma CompactionKeepsTopology(text: Text, c: Context, budget: int, name: string, key: string)
    requires Compacted(text, c, budget).Fits?
    ensures var before, after :=
      ServiceIn(c.topology, name), ServiceIn(Compacted(text, c, budget).value.topology, name);
      && after.Some? == before.Some?
      && (before.Some? ==>
          (ContextSize(c) <= budget && after == before) || ServiceTold(before.value, after.value, key))
  {
    CompactionKeeps(text, c, budget);
    TrimKeepsService(c.topology, name, key);
  }

  lemma TrimKeepsService(topology: Json, name: string, key: string)
    ensures ServiceIn(TrimTopology(topology), name).Some? == ServiceIn(topology, name).Some?
    ensures ServiceIn(topology, name).Some? ==>
      ServiceTold(ServiceIn(topology, name).value, ServiceIn(TrimTopology(topology), name).value, key)
  {
    match Lookup(topology, "services") {
      case Some(JObj(services)) =>
        PutGet(topology.fields, "services", JObj(TrimServices(services)), "services");
        TrimServicesGet(services, name);
        if Has(services, name) { TrimTells(Get(services, name), key); }
      case _ =>
    }
  }

  lemma TrimTells(service: Json, key: string)
    ensures ServiceTold(service, TrimService(service), key)
  {
    if service.JObj? {
      var described := Described(service.fields);
      if key in DISPLAY {
        DisplayGone(described, key);
      } else {
        WithoutDisplayGet(described, key);
        DescribedGet(service.fields, key);
      }
    }
  }

  lemma DescribedGet(fields: seq<Field>, key: string)
    ensures var before, after := Lookup(JObj(fields), key), Lookup(JObj(Described(fields)), key);
      if key == "description" && before.Some? && before.value.JStr?
      then after.Some? && after.value.JStr? && ClippedTo(before.value.s, 120, after.value.s)
      else after == before
  {
    match Lookup(JObj(fields), "description") {
      case Some(JStr(s)) =>
        PutGet(fields, "description", JStr(Clipped(s, 120)), key);
        ClippedTells(s, 120);
      case _ =>
    }
  }

  lemma {:induction false} DisplayGone(fields: seq<Field>, key: string)
    requires key in DISPLAY
    ensures !Has(WithoutDisplay(fields), key)
  {
    if fields != [] {
      DisplayGone(fields[1..], key);
      PrependGet(fields[0], WithoutDisplay(fields[1..]), key);
      if fields[0].key in DISPLAY { assert [] + WithoutDisplay(fields[1..]) == WithoutDisplay(fields[1..]); }
    }
  }

  lemma {:induction false} WithoutDisplayGet(fields: seq<Field>, key: string)
    requires key !in DISPLAY
    ensures Has(WithoutDisplay(fields), key) == Has(fields, key)
    ensures Has(fields, key) ==> Get(WithoutDisplay(fields), key) == Get(fields, key)
  {
    if fields != [] {
      WithoutDisplayGet(fields[1..], key);
      assert fields == [fields[0]] + fields[1..];
      PrependGet(fields[0], fields[1..], key);
      PrependGet(fields[0], WithoutDisplay(fields[1..]), key);
      if fields[0].key in DISPLAY {
        assert WithoutDisplay(fields) == WithoutDisplay(fields[1..]);
      }
    }
  }

  lemma {:induction false} TrimServicesGet(services: seq<Field>, name: string)
    ensures Has(TrimServices(services), name) == Has(services, name)
    ensures Has(services, name) ==> Get(TrimServices(services), name) == TrimService(Get(services, name))
  {
    if services != [] {
      TrimServicesGet(services[1..], name);
      assert services == [services[0]] + services[1..];
      PrependGet(services[0], services[1..], name);
      PrependGet(Field(services[0].key, TrimService(services[0].value)), TrimServices(services[1..]), name);
    }
  }

  // --- Escapes can defeat it, and exactly when ---

  /** What the last resort costs for an observation with `share` characters. */
  function LastResort(o: Observation, share: int): nat {
    23 + Escaped(Clipped(Clipped(o.interpretation, 180), Max(0, share - 40)))
  }

  /** The most that the results of these observations can take, when each may use `share` characters:
      a result either fits its share or is replaced by the last resort. */
  function Worst(observations: seq<Observation>, share: int): nat {
    if observations == [] then 0
    else Max(share, LastResort(observations[0], share)) + Worst(observations[1..], share)
  }

  function WithResults(observations: seq<Observation>, results: seq<seq<Field>>): (r: seq<Observation>)
    requires |observations| == |results|
    ensures |r| == |observations| && forall i :: 0 <= i < |r| ==> r[i] == observations[i].(result := results[i])
  {
    if observations == [] then []
    else [observations[0].(result := results[0])] + WithResults(observations[1..], results[1..])
  }

  /** With some results and some budget, the identities of the observations fit and the last error
      is raised nevertheless. */
  ghost predicate CanFail(text: Text, c: Context) {
    exists results: seq<seq<Field>>, budget: int :: FailsWith(text, c, results, budget)
  }

  predicate FailsWith(text: Text, c: Context, results: seq<seq<Field>>, budget: int) {
    |results| == |c.observations|
    && Compacted(text, c.(observations := WithResults(c.observations, results)), budget) == Fails(TooLarge)
  }

  /** The condition: for some amount that is left to share, the clipped interpretations can take
      more than all of it and the spare characters of the skeleton. */
  predicate Overruns(observations: seq<Observation>, available: int) {
    var n := |observations|;
    available >= 100 * n && Worst(observations, available / Max(1, n)) > available + 32 + 2 * n
  }

  lemma MulMono(a: nat, b: nat, c: nat)
    requires a <= b
    ensures a * c <= b * c
  {
  }

  /** a * b / (b * n) == a / n */
  lemma CancelFactor(a: nat, b: nat, n: nat)
    requires b > 0 && n > 0
    ensures b * n > 0 && a * b / (b * n) == a / n
  {
    var q, r := a / n, a % n;
    assert a == q * n + r;
    Distribute(q * n, r, b);
    Rearrange(q, n, b);
    MulLess(r, n, b);
    DivisionIs(a * b, b * n, q, r * b);
  }

  lemma Distribute(a: int, b: int, c: int)
    ensures (a + b) * c == a * c + b * c
  {
  }

  lemma Rearrange(q: int, n: int, b: int)
    ensures q * n * b == q * (b * n)
  {
  }

  lemma MulLess(r: nat, n: nat, b: nat)
    requires r < n && b > 0
    ensures r * b < b * n
  {
    MulMono(r + 1, n, b);
    Distribute(r, 1, b);
  }

  lemma DivisionIs(x: nat, d: nat, q: nat, r: nat)
    requires d > 0 && x == q * d + r && r < d
    ensures x / d == q
  {
    var p := x / d;
    assert x == p * d + x % d;
    assert (p + 1) * d == p * d + d && (q + 1) * d == q * d + d;
    if p < q { MulMono(p + 1, q, d); }
    if q < p { MulMono(q + 1, p, d); }
  }

  // What a failure costs

  /** Every observation refilled with the same share. */
  function FilledEqually(text: Text, observations: seq<Observation>, each: int): (r: seq<Observation>)
    ensures |r| == |observations|
    ensures forall i :: 0 <= i < |r| ==> r[i] == Refill(text, observations[i], Blank(observations[i]), each)
  {
    if observations == [] then []
    else [Refill(text, observations[0], Blank(observations[0]), each)] + FilledEqually(text, observations[1..], each)
  }

  lemma {:induction false} FilledWithin(text: Text, observations: seq<Observation>, each: nat)
    ensures ResultSizes(FilledEqually(text, observations, each)) <= Worst(observations, each)
  {
    if observations != [] {
      RefillWithin(text, observations[0], each);
      FilledWithin(text, observations[1..], each);
      FilledUnfolds(text, observations, each);
    }
  }

  lemma RefillWithin(text: Text, o: Observation, each: nat)
    ensures Size(JObj(Refill(text, o, Blank(o), each).result)) <= Max(each, LastResort(o, each))
  {
    SummarySize(Blank(o).interpretation, each);
  }

  lemma FilledUnfolds(text: Text, observations: seq<Observation>, each: int)
    requires observations != []
    ensures ResultSizes(FilledEqually(text, observations, each))
      == Size(JObj(Refill(text, observations[0], Blank(observations[0]), each).result))
        + ResultSizes(FilledEqually(text, observations[1..], each))
  {
    assert FilledEqually(text, observations, each)[1..] == FilledEqually(text, observations[1..], each);
  }

  /** The amount that every observation gets in the equal pass. */
  function Each(text: Text, c: Context, budget: int): int {
    Available(text, c, budget) / Max(1, |c.observations|)
  }

  /** The size of the equal pass, whatever the results. */
  lemma EqualPassSize(text: Text, c: Context, budget: int)
    requires Available(text, c, budget) >= 0
    ensures var n, available := |c.observations|, Available(text, c, budget);
      ContextSize(EqualPass(text, c, budget)) == budget - 32 - available - 2 * n
        + ResultSizes(EqualPass(text, c, budget).observations)
  {
    EqualPassFilled(text, c, budget);
    SkeletonObservations(text, c, budget);
    PassSize(Skeleton(text, c, budget), EqualPass(text, c, budget).observations);
  }

  lemma {:induction false} WorstIgnoresResults(observations: seq<Observation>, results: seq<seq<Field>>, share: int)
    requires |observations| == |results|
    ensures Worst(WithResults(observations, results), share) == Worst(observations, share)
  {
    if observations != [] { WorstIgnoresResults(observations[1..], results[1..], share); }
  }

  lemma EqualPassWithin(text: Text, d: Context, budget: int)
    requires Available(text, d, budget) >= 0 && Each(text, d, budget) >= 0
    ensures ResultSizes(EqualPass(text, d, budget).observations) <= Worst(d.observations, Each(text, d, budget))
  {
    EqualPassFilled(text, d, budget);
    FilledWithin(text, d.observations, Each(text, d, budget));
  }

  lemma EqualPassFilled(text: Text, c: Context, budget: int)
    requires Available(text, c, budget) >= 0
    ensures EqualPass(text, c, budget)
      == Skeleton(text, c, budget).(observations := FilledEqually(text, c.observations, Each(text, c, budget)))
  {
    var n, each := |c.observations|, Each(text, c, budget);
    SharesLength(c.observations, 0, 1, each);
    SkeletonObservations(text, c, budget);
    FilledAlike(text, c.observations, Blanks(c.observations), Equal(n, each), each);
  }

  lemma FilledAlike(text: Text, observations: seq<Observation>, blanks: seq<Observation>, shares: seq<int>, each: int)
    requires |observations| == |blanks| == |shares| && forall i :: 0 <= i < |shares| ==> shares[i] == each
    requires forall i :: 0 <= i < |blanks| ==> blanks[i] == Blank(observations[i])
    ensures Filled(text, observations, blanks, shares) == FilledEqually(text, observations, each)
  {
  }

  lemma FailureCosts(text: Text, d: Context, budget: int)
    requires Available(text, d, budget) >= 100 * |d.observations| && ContextSize(EqualPass(text, d, budget)) > budget
    ensures Overruns(d.observations, Available(text, d, budget))
  {
    ShareFloor(Available(text, d, budget), |d.observations|);
    EqualPassSize(text, d, budget);
    EqualPassWithin(text, d, budget);
  }

  lemma {:induction false} OverrunIgnoresResults(observations: seq<Observation>, results: seq<seq<Field>>,
                                                 available: int)
    requires |results| == |observations|
    ensures Overruns(WithResults(observations, results), available) == Overruns(observations, available)
  {
    WorstIgnoresResults(observations, results, available / Max(1, |observations|));
  }

  // How to make it fail

  /** The result that takes most: one that nothing abbreviates, or one that fills its share. */
  function Costly(o: Observation, each: nat, n: nat): seq<Field> {
    if LastResort(o, each) >= each || each < 100 then Wide(n) else Long(each - 95, n)
  }

  lemma CostlySize(text: Text, o: Observation, each: nat, n: nat)
    requires 100 <= each <= n
    ensures Size(JObj(Costly(o, each, n))) > n
    ensures Size(JObj(CompactResult(text, Costly(o, each, n), each, Clipped(o.interpretation, 180))))
      == Max(each, LastResort(o, each))
  {
    var summary := Clipped(o.interpretation, 180);
    if LastResort(o, each) >= each {
      WideNeverFits(text, n, each, summary);
      SummarySize(summary, each);
    } else {
      LongFillsBudget(text, each, n, summary);
    }
  }

  function CostlyResults(observations: seq<Observation>, each: nat, n: nat): (r: seq<seq<Field>>)
    ensures |r| == |observations| && forall i :: 0 <= i < |r| ==> r[i] == Costly(observations[i], each, n)
  {
    if observations == [] then [] else [Costly(observations[0], each, n)] + CostlyResults(observations[1..], each, n)
  }

  predicate AllCostly(observations: seq<Observation>, each: nat, n: nat) {
    forall i | 0 <= i < |observations| :: observations[i].result == Costly(observations[i], each, n)
  }

  /** Every observation has a result larger than the largest weight. */
  predicate AllHeavy(observations: seq<Observation>, size: nat) {
    forall i | 0 <= i < |observations| :: Size(JObj(observations[i].result)) > size
  }

  lemma {:induction false} HeavyWeights(observations: seq<Observation>)
    requires AllHeavy(observations, 1800)
    ensures TotalWeight(observations) == 1800 * |observations|
  {
    if observations != [] {
      assert AllHeavy(observations[1..], 1800);
      HeavyWeights(observations[1..]);
    }
  }

  lemma {:induction false} HeavyShares(observations: seq<Observation>, available: nat, n: nat)
    requires AllHeavy(observations, 1800) && n > 0 && available / n >= 100
    ensures Weighted(observations, available, 1800 * n) == Equal(|observations|, available / n)
  {
    if observations != [] {
      assert AllHeavy(observations[1..], 1800) && Weight(observations[0]) == 1800;
      CancelFactor(available, 1800, n);
      HeavyShares(observations[1..], available, n);
    }
  }

  /** When every result is heavy, both passes share equally. */
  lemma HeavyPasses(text: Text, c: Context, budget: int)
    requires c.observations != [] && AllHeavy(c.observations, 1800)
      && Available(text, c, budget) >= 100 * |c.observations|
    ensures FirstPass(text, c, budget) == EqualPass(text, c, budget)
  {
    ShareFloor(Available(text, c, budget), |c.observations|);
    HeavyWeights(c.observations);
    HeavyShares(c.observations, Available(text, c, budget), |c.observations|);
  }

  lemma CostlyRefill(text: Text, o: Observation, each: nat, n: nat)
    requires 100 <= each <= n && o.result == Costly(o, each, n)
    ensures Size(JObj(Refill(text, o, Blank(o), each).result)) == Max(each, LastResort(o, each))
  {
    CostlySize(text, o, each, n);
  }

  lemma {:induction false} CostlyFilled(text: Text, observations: seq<Observation>, each: nat, n: nat)
    requires 100 <= each <= n && AllCostly(observations, each, n)
    ensures ResultSizes(FilledEqually(text, observations, each)) == Worst(observations, each)
  {
    if observations != [] {
      assert AllCostly(observations[1..], each, n);
      CostlyRefill(text, observations[0], each, n);
      CostlyFilled(text, observations[1..], each, n);
      FilledUnfolds(text, observations, each);
    }
  }

  lemma {:induction false} HeavyTotal(observations: seq<Observation>, size: nat)
    requires AllHeavy(observations, size)
    ensures ResultSizes(observations) >= 2 * |observations| + if observations == [] then 0 else size - 1
  {
    if observations != [] {
      assert AllHeavy(observations[1..], size);
      HeavyTotal(observations[1..], size);
      ObjectSize(observations[0].result);
      AtLeastTwo(observations[1..]);
    }
  }

  lemma {:induction false} AtLeastTwo(observations: seq<Observation>)
    ensures ResultSizes(observations) >= 2 * |observations|
  {
    if observations != [] {
      ObjectSize(observations[0].result);
      AtLeastTwo(observations[1..]);
    }
  }

  /** A context is larger than any of its results. */
  lemma HeavyContext(c: Context, size: nat)
    requires c.observations != [] && AllHeavy(c.observations, size)
    ensures ContextSize(c) >= size - 1
  {
    var blanks := Blanks(c.observations);
    var emptied := WithResults(c.observations, seq(|c.observations|, _ => []));
    HeavyTotal(c.observations, size);
    BlankSizes(emptied);
    ResultsAddUp(c, emptied);
  }

  // A budget that leaves any given amount

  lemma RetrievedField(c: Context)
    ensures var fields := ContextFields(c);
      && |fields| > 4 && fields[3] == Field("retrieved_incidents", JArr(c.incidents))
      && fields[4] == Field("retrieved_runbooks", JArr(c.runbooks))
      && ContextFields(c.(incidents := [], runbooks := []))
        == fields[3 := Field("retrieved_incidents", JArr([]))][4 := Field("retrieved_runbooks", JArr([]))]
  {
  }

  /** Dropping the retrieved guidance never makes a context larger. */
  lemma DroppingShrinks(c: Context)
    ensures ContextSize(c.(incidents := [], runbooks := [])) <= ContextSize(c)
  {
    var fields := ContextFields(c);
    RetrievedField(c);
    var once := fields[3 := Field("retrieved_incidents", JArr([]))];
    ReplacedFieldSize(fields, 3, JArr([]));
    ReplacedFieldSize(once, 4, JArr([]));
    ArraySize(c.incidents);
    ArraySize(c.runbooks);
    ArraySize([]);
    ObjectSize(fields);
    ObjectSize(once[4 := Field("retrieved_runbooks", JArr([]))]);
  }

  lemma BudgetLeaving(text: Text, c: Context, available: nat) returns (budget: int)
    ensures Available(text, c, budget) == available
  {
    var s := Stripped(text, c);
    if 32 + available >= 128 * |c.observations| {
      budget := ContextSize(s) + 32 + available;
    } else {
      DroppingShrinks(s);
      budget := ContextSize(s.(incidents := [], runbooks := [])) + 32 + available;
    }
  }

  /** What is left does not depend on the results. */
  lemma SkeletonIgnoresResults(text: Text, c: Context, d: Context, budget: int)
    requires d == c.(observations := d.observations) && Blanks(d.observations) == Blanks(c.observations)
    ensures Skeleton(text, d, budget) == Skeleton(text, c, budget)
  {
    assert |Blanks(d.observations)| == |Blanks(c.observations)|;
    assert Stripped(text, d) == Stripped(text, c);
  }

  /** The context with the results that take most. */
  function Costliest(c: Context, each: nat, size: nat): Context {
    c.(observations := WithResults(c.observations, CostlyResults(c.observations, each, size)))
  }

  lemma CostliestIsCostly(c: Context, each: nat, size: nat)
    ensures var d := Costliest(c, each, size);
      && |d.observations| == |c.observations|
      && (forall i :: 0 <= i < |d.observations| ==>
         d.observations[i].interpretation == c.observations[i].interpretation)
      && AllCostly(d.observations, each, size)
  {
  }

  lemma CostliestBlanks(c: Context, each: nat, size: nat)
    ensures Blanks(Costliest(c, each, size).observations) == Blanks(c.observations)
  {
  }

  lemma CostliestIsHeavy(text: Text, c: Context, each: nat, size: nat)
    requires 100 <= each <= size
    ensures AllHeavy(Costliest(c, each, size).observations, size)
  {
    var d := Costliest(c, each, size);
    CostliestIsCostly(c, each, size);
    forall i | 0 <= i < |d.observations| ensures Size(JObj(d.observations[i].result)) > size {
      CostlySize(text, d.observations[i], each, size);
    }
  }

  lemma CostliestFails(text: Text, c: Context, available: nat, budget: int, each: nat, size: nat)
    requires Overruns(c.observations, available) && Available(text, c, budget) == available
    requires each == available / Max(1, |c.observations|) && 100 <= each <= size && size >= 1802 && size >= budget + 2
    ensures FailsWith(text, c, CostlyResults(c.observations, each, size), budget)
  {
    var d := Costliest(c, each, size);
    CostliestIsCostly(c, each, size);
    CostliestIsHeavy(text, c, each, size);
    CostliestOverruns(c, available, each, size);
    CostliestLeaves(text, c, budget, each, size);
    CostlyFails(text, d, budget, each, size);
  }

  lemma CostliestOverruns(c: Context, available: int, each: nat, size: nat)
    requires Overruns(c.observations, available)
    ensures Overruns(Costliest(c, each, size).observations, available)
  {
    OverrunIgnoresResults(c.observations, CostlyResults(c.observations, each, size), available);
  }

  lemma CostliestLeaves(text: Text, c: Context, budget: int, each: nat, size: nat)
    ensures Available(text, Costliest(c, each, size), budget) == Available(text, c, budget)
  {
    CostliestBlanks(c, each, size);
    SkeletonIgnoresResults(text, c, Costliest(c, each, size), budget);
  }

  lemma OverrunFails(text: Text, c: Context, available: nat)
    requires Overruns(c.observations, available)
    ensures CanFail(text, c)
  {
    var budget := BudgetLeaving(text, c, available);
    ShareFloor(available, |c.observations|);
    var each := available / Max(1, |c.observations|);
    var size := 1802 + each + if budget >= 0 then budget else 0;
    CostliestFails(text, c, available, budget, each, size);
  }

  lemma FailureOverruns(text: Text, c: Context, results: seq<seq<Field>>, budget: int)
    requires FailsWith(text, c, results, budget)
    ensures exists available: nat :: Overruns(c.observations, available)
  {
    var d := c.(observations := WithResults(c.observations, results));
    FailureCosts(text, d, budget);
    OverrunIgnoresResults(c.observations, results, Available(text, d, budget));
  }

  lemma CostlyFails(text: Text, d: Context, budget: int, each: nat, size: nat)
    requires d.observations != [] && AllHeavy(d.observations, size) && size >= 1802 && size >= budget + 2
      && 100 <= each <= size
    requires AllCostly(d.observations, each, size)
    requires Available(text, d, budget) >= 100 * |d.observations|
      && each == Available(text, d, budget) / Max(1, |d.observations|)
    requires Overruns(d.observations, Available(text, d, budget))
    ensures Compacted(text, d, budget) == Fails(TooLarge)
  {
    var n := |d.observations|;
    HeavyContext(d, size);
    HeavyPasses(text, d, budget);
    EqualPassSize(text, d, budget);
    EqualPassFilled(text, d, budget);
    CostlyFilled(text, d.observations, each, size);
  }

  /** Whatever the context: it can happen that the identities fit and the last error is still raised,
      if and only if for some amount to share the clipped interpretations overrun it. */
  lemma CanFailIff(text: Text, c: Context)
    ensures CanFail(text, c) <==> exists available: nat :: Overruns(c.observations, available)
  {
    if results: seq<seq<Field>>, budget: int :| FailsWith(text, c, results, budget) {
      FailureOverruns(text, c, results, budget);
    }
    if available: nat :| Overruns(c.observations, available) {
      OverrunFails(text, c, available);
    }
  }

  lemma {:induction false} QuotesCost(n: nat)
    ensures Escaped(Repeated('"', n)) == 2 * n
  {
    if n > 0 {
      assert Repeated('"', n)[1..] == Repeated('"', n - 1);
      QuotesCost(n - 1);
    }
  }

  lemma {:induction false} QuotedWorst(observations: seq<Observation>)
    requires forall i :: 0 <= i < |observations| ==> observations[i].interpretation == Repeated('"', 180)
    ensures Worst(observations, 220) == 383 * |observations|
  {
    if observations != [] {
      QuotesCost(180);
      QuotedWorst(observations[1..]);
    }
  }

  /** Which they can: interpretations of 180 quotation marks cost 383 characters of a share of 220,
      however many observations there are. */
  lemma QuotedInterpretationsCanFail(text: Text, c: Context)
    requires c.observations != []
    requires forall i :: 0 <= i < |c.observations| ==> c.observations[i].interpretation == Repeated('"', 180)
    ensures CanFail(text, c)
  {
    var n := |c.observations|;
    DivisionIs(220 * n, n, 220, 0);
    QuotedWorst(c.observations);
    assert Overruns(c.observations, 220 * n);
    CanFailIff(text, c);
  }

  // --- The passes over the copy ---

  method CompactTools(tools: seq<Entry>) returns (r: seq<Entry>)
    ensures r == CompactEntries(tools)
  {
    CompactEntriesAt(tools);
    r := tools;
    for i := 0 to |tools|
      invariant |r| == |tools|
      invariant forall j :: 0 <= j < |tools| ==> r[j] == if j < i then CompactEntry(tools[j]) else tools[j]
    {
      r := r[i := CompactEntry(r[i])];
    }
  }

  method StripResults(observations: seq<Observation>) returns (r: seq<Observation>, originals: seq<seq<Field>>)
    ensures r == Blanks(observations)
    ensures |originals| == |observations| && forall i :: 0 <= i < |observations| ==>
      originals[i] == observations[i].result
  {
    r, originals := observations, [];
    for i := 0 to |observations|
      invariant |r| == |observations| && |originals| == i
      invariant forall j :: 0 <= j < i ==> originals[j] == observations[j].result
      invariant forall j :: 0 <= j < |observations| ==> r[j] == if j < i then Blank(observations[j])
        else observations[j]
    {
      originals := originals + [r[i].result];
      r := r[i := r[i].(result := [])];
      r := r[i := r[i].(interpretation := Clipped(r[i].interpretation, 180))];
    }
  }

  method TotalOf(observations: seq<Observation>) returns (total: nat)
    ensures total == TotalWeight(observations)
  {
    total := 0;
    var i := |observations|;
    while i > 0
      invariant 0 <= i <= |observations|
      invariant total == TotalWeight(observations[i..])
    {
      i := i - 1;
      assert observations[i..][1..] == observations[i + 1..];
      total := total + Weight(observations[i]);
    }
  }

  method RefillResults(text: Text, blanks: seq<Observation>, originals: seq<Observation>, shares: seq<int>)
    returns (r: seq<Observation>)
    requires |originals| == |blanks| == |shares|
    ensures r == Filled(text, originals, blanks, shares)
  {
    r := blanks;
    for i := 0 to |blanks|
      invariant |r| == |blanks|
      invariant forall j :: 0 <= j < |blanks| ==>
        r[j] == if j < i then Refill(text, originals[j], blanks[j], shares[j]) else blanks[j]
    {
      r := r[i := r[i].(result := CompactResult(text, originals[i].result, shares[i], r[i].interpretation))];
    }
  }

  method StripContext(text: Text, context: Context, budget: int) returns (value: Context)
    ensures value == Skeleton(text, context, budget)
  {
    var tools := CompactTools(context.tools);
    var blanks, originals := StripResults(context.observations);
    value := Context(context.incident.(description := Clipped(context.incident.description, 1200)), tools,
      TrimTopology(context.topology),
                     TrimRetrieved(text, context.incidents), TrimRetrieved(text, context.runbooks), blanks,
                     TrimHypotheses(context.hypotheses), context.feedback, context.remaining, context.autonomous, true);
    if ContextSize(value) > budget - 128 * |originals| {
      value := value.(incidents := [], runbooks := []);
    }
  }

  method ShareByWeight(text: Text, context: Context, budget: int, skeleton: Context) returns (value: Context)
    requires skeleton == Skeleton(text, context, budget) && Available(text, context, budget) >= 0
    ensures value == FirstPass(text, context, budget)
  {
    var available := budget - ContextSize(skeleton) - 32;
    assert available == Available(text, context, budget);
    var total := TotalOf(context.observations);
    total := if total == 0 then 1 else total;
    SharesLength(context.observations, available, total, 0);
    var filled := RefillResults(text, skeleton.observations, context.observations,
      Weighted(context.observations, available, total));
    value := skeleton.(observations := filled);
  }

  method ShareEqually(text: Text, context: Context, budget: int, skeleton: Context) returns (value: Context)
    requires skeleton == Skeleton(text, context, budget) && Available(text, context, budget) >= 0
    ensures value == EqualPass(text, context, budget)
  {
    var each := (budget - ContextSize(skeleton) - 32) / Max(1, |context.observations|);
    SharesLength(context.observations, 0, 1, each);
    var filled := RefillResults(text, skeleton.observations, context.observations, Equal(|context.observations|, each));
    value := skeleton.(observations := filled);
  }

  method CompactContext(text: Text, context: Context, budget: int) returns (r: Outcome)
    ensures r == Compacted(text, context, budget)
  {
    if ContextSize(context) <= budget { return Fits(context); }
    var skeleton := StripContext(text, context, budget);
    var available := budget - ContextSize(skeleton) - 32;
    if available < 100 * |context.observations| { return Fails(ConstraintsTooLarge); }
    var value := ShareByWeight(text, context, budget, skeleton);
    if ContextSize(value) > budget {
      value := ShareEqually(text, context, budget, skeleton);
    }
    if ContextSize(value) > budget { return Fails(TooLarge); }
    r := Fits(value);
  }
}
