/** The document that the model is sent: what it says of every observation, tool and hypothesis, and how the
    characters that are left are shared among the results. */
module ContextDocument {
  import opened JsonValues
  import opened JsonSize
  import opened Sampling
  import opened Compaction

  // --- What the document says ---

  predicate Says(document: Json, key: string, value: Json) {
    Lookup(document, key) == Some(value)
  }

  /** One observation in full; a remediation is marked as one, and nothing else is. */
  predicate SaysObservation(document: Json, o: Observation) {
    && Says(document, "id", JStr(o.id)) && Says(document, "step_number", JInt(o.step))
    && Says(document, "tool_name", JStr(o.tool)) && Says(document, "tool_arguments", o.arguments)
    && Says(document, "result", JObj(o.result)) && Says(document, "ok", o.ok)
    && Says(document, "interpretation", JStr(o.interpretation))
    && Lookup(document, "phase") == if o.remediation then Some(JStr("REMEDIATION")) else None
  }

  predicate SaysIncident(document: Json, i: Incident) {
    && Says(document, "id", JStr(i.id)) && Says(document, "title", JStr(i.title))
    && Says(document, "description", JStr(i.description)) && Says(document, "service", JStr(i.service))
  }

  predicate SaysTool(document: Json, e: Entry) {
    && Says(document, "name", JStr(e.tool.name)) && Says(document, "description", e.description)
    && Says(document, "risk_level", JStr(e.tool.risk)) && Says(document, "parameters", e.tool.parameters)
  }

  lemma ObservationSaid(o: Observation)
    ensures SaysObservation(JObj(ObservationFields(o)), o)
  {
    var f := ObservationFields(o);
    assert f[0].key == "id" && f[1].key == "step_number" && f[2].key == "tool_name" && f[3].key == "tool_arguments";
    assert f[4].key == "result" && f[5].key == "ok" && f[6].key == "interpretation";
    assert o.remediation ==> f[7] == Field("phase", JStr("REMEDIATION"));
  }

  lemma ToolSaid(e: Entry)
    ensures SaysTool(EntryJson(e), e)
  {
    var f := EntryJson(e).fields;
    assert f[0].key == "name" && f[1].key == "description" && f[2].key == "risk_level" && f[3].key == "parameters";
  }

  lemma {:induction false} ObservationsSaid(observations: seq<Observation>, i: nat)
    requires i < |observations|
    ensures |ObservationsJson(observations)| == |observations|
    ensures SaysObservation(ObservationsJson(observations)[i], observations[i])
  {
    if i > 0 {
      ObservationsSaid(observations[1..], i - 1);
    } else {
      ObservationSaid(observations[0]);
      ObservationsListed(observations);
    }
  }

  lemma {:induction false} ObservationsListed(observations: seq<Observation>)
    ensures |ObservationsJson(observations)| == |observations|
  {
    if observations != [] { ObservationsListed(observations[1..]); }
  }

  lemma {:induction false} ToolsSaid(tools: seq<Entry>, i: nat)
    requires i < |tools|
    ensures |EntriesJson(tools)| == |tools| && SaysTool(EntriesJson(tools)[i], tools[i])
  {
    if i > 0 {
      ToolsSaid(tools[1..], i - 1);
    } else {
      ToolSaid(tools[0]);
      ToolsListed(tools);
    }
  }

  lemma {:induction false} ToolsListed(tools: seq<Entry>)
    ensures |EntriesJson(tools)| == |tools|
  {
    if tools != [] { ToolsListed(tools[1..]); }
  }

  lemma {:induction false} HypothesesSaid(hypotheses: seq<Hypothesis>, i: nat)
    requires i < |hypotheses|
    ensures |HypothesesJson(hypotheses)| == |hypotheses|
    ensures Says(HypothesesJson(hypotheses)[i], "description", JStr(hypotheses[i].description))
  {
    if i > 0 { HypothesesSaid(hypotheses[1..], i - 1); } else { HypothesesListed(hypotheses); }
  }

  lemma {:induction false} HypothesesListed(hypotheses: seq<Hypothesis>)
    ensures |HypothesesJson(hypotheses)| == |hypotheses|
  {
    if hypotheses != [] { HypothesesListed(hypotheses[1..]); }
  }

  predicate ListsObservations(v: Json, observations: seq<Observation>) {
    && v.JArr? && |v.items| == |observations|
    && forall i | 0 <= i < |observations| :: SaysObservation(v.items[i], observations[i])
  }

  predicate ListsTools(v: Json, tools: seq<Entry>) {
    v.JArr? && |v.items| == |tools| && forall i | 0 <= i < |tools| :: SaysTool(v.items[i], tools[i])
  }

  predicate ListsHypotheses(v: Json, hypotheses: seq<Hypothesis>) {
    && v.JArr? && |v.items| == |hypotheses|
    && forall i | 0 <= i < |hypotheses| :: Says(v.items[i], "description", JStr(hypotheses[i].description))
  }

  /** The lists of the document, item by item, and the rest of it. */
  predicate SaysContext(document: Json, c: Context) {
    && SaysIncident(GetOrNull(document, "incident"), c.incident)
    && ListsObservations(GetOrNull(document, "observations"), c.observations)
    && ListsTools(GetOrNull(document, "tools"), c.tools)
    && ListsHypotheses(GetOrNull(document, "hypotheses"), c.hypotheses)
    && Says(document, "topology", c.topology) && Says(document, "validation_feedback", JStr(c.feedback))
    && Says(document, "retrieved_incidents", JArr(c.incidents))
    && Says(document, "retrieved_runbooks", JArr(c.runbooks))
    && Says(document, "remaining_steps", c.remaining)
    && Says(document, "autonomous_actions_enabled", JBool(c.autonomous))
    && (Lookup(document, "context_compacted").Some? <==> c.compacted)
  }

  lemma ContextKeys(c: Context)
    ensures var f := ContextFields(c);
      && |f| == (if c.compacted then 11 else 10)
      && f[0].key == "incident" && f[1].key == "tools" && f[2].key == "topology" && f[3].key == "retrieved_incidents"
      && f[4].key == "retrieved_runbooks" && f[5].key == "observations" && f[6].key == "hypotheses"
      && f[7].key == "validation_feedback" && f[8].key == "remaining_steps" && f[9].key == "autonomous_actions_enabled"
      && (c.compacted ==> f[10].key == "context_compacted")
  {
  }

  lemma LookupAt(fields: seq<Field>, i: nat)
    requires i < |fields| && forall j :: 0 <= j < i ==> fields[j].key != fields[i].key
    ensures Lookup(JObj(fields), fields[i].key) == Some(fields[i].value)
  {
  }

  lemma ListsSaid(c: Context)
    ensures ListsObservations(JArr(ObservationsJson(c.observations)), c.observations)
    ensures ListsTools(JArr(EntriesJson(c.tools)), c.tools)
    ensures ListsHypotheses(JArr(HypothesesJson(c.hypotheses)), c.hypotheses)
  {
    ObservationsListed(c.observations);
    ToolsListed(c.tools);
    HypothesesListed(c.hypotheses);
    forall i | 0 <= i < |c.observations|
      ensures SaysObservation(ObservationsJson(c.observations)[i], c.observations[i])
    {
      ObservationsSaid(c.observations, i);
    }
    forall i | 0 <= i < |c.tools| ensures SaysTool(EntriesJson(c.tools)[i], c.tools[i]) { ToolsSaid(c.tools, i); }
    forall i | 0 <= i < |c.hypotheses|
      ensures Says(HypothesesJson(c.hypotheses)[i], "description", JStr(c.hypotheses[i].description))
    {
      HypothesesSaid(c.hypotheses, i);
    }
  }

  lemma KeysDiffer(c: Context, i: nat)
    requires i < |ContextFields(c)|
    ensures forall j :: 0 <= j < i ==> ContextFields(c)[j].key != ContextFields(c)[i].key
  {
    ContextKeys(c);
    var f := ContextFields(c);
    assert forall j :: 0 <= j < 10 ==>
      f[j].key[0] == if j == 0 then 'i' else if j <= 2 then 't' else if j <= 4 || j == 8 then 'r'
        else if j == 5 then 'o'
        else if j == 6 then 'h' else if j == 7 then 'v' else 'a';
    assert |f[1].key| == 5 && |f[2].key| == 8 && |f[3].key| == 19 && |f[4].key| == 18 && |f[8].key| == 15;
  }

  lemma FieldsSaid(c: Context)
    ensures var f := ContextFields(c);
      && (forall i: nat :: i < 10 ==> Lookup(JObj(f), f[i].key) == Some(f[i].value))
      && (Lookup(JObj(f), "context_compacted").Some? <==> c.compacted)
  {
    var f := ContextFields(c);
    assert |f| == if c.compacted then 11 else 10;
    forall i: nat | i < 10 ensures Lookup(JObj(f), f[i].key) == Some(f[i].value) {
      KeysDiffer(c, i);
      LookupAt(f, i);
    }
    NoteSaid(c);
  }

  lemma NoteSaid(c: Context)
    ensures Lookup(JObj(ContextFields(c)), "context_compacted").Some? <==> c.compacted
  {
    var f := ContextFields(c);
    ContextKeys(c);
    if c.compacted {
      KeysDiffer(c, 10);
      LookupAt(f, 10);
    } else {
      assert forall j :: 0 <= j < 10 ==> |f[j].key| != 17;
    }
  }

  lemma IncidentSaid(c: Context)
    ensures SaysIncident(ContextFields(c)[0].value, c.incident)
  {
    var f := ContextFields(c)[0].value.fields;
    assert f[0].key == "id" && f[1].key == "title" && f[2].key == "description" && f[3].key == "service";
  }

  /** The document says what the context is. */
  lemma ContextSaid(c: Context)
    ensures SaysContext(JObj(ContextFields(c)), c)
  {
    var f := ContextFields(c);
    ContextKeys(c);
    FieldsSaid(c);
    ListsSaid(c);
    IncidentSaid(c);
    assert f[1].value == JArr(EntriesJson(c.tools)) && f[5].value == JArr(ObservationsJson(c.observations))
      && f[6].value == JArr(HypothesesJson(c.hypotheses));
    assert f[2].value == c.topology && f[3].value == JArr(c.incidents) && f[4].value == JArr(c.runbooks);
    assert f[7].value == JStr(c.feedback) && f[8].value == c.remaining && f[9].value == JBool(c.autonomous);
  }

  // --- How the characters are shared ---

  /** A result counts with its size, at least 100 and at most 1800. */
  function Claim(o: Observation): nat {
    var size := Size(JObj(o.result));
    if size < 100 then 100 else if size > 1800 then 1800 else size
  }

  function Claims(observations: seq<Observation>): nat {
    if observations == [] then 0
    else Claims(observations[..|observations| - 1]) + Claim(observations[|observations| - 1])
  }

  lemma {:induction false} ClaimsFromTheFront(observations: seq<Observation>)
    requires observations != []
    ensures Claims(observations) == Claim(observations[0]) + Claims(observations[1..])
  {
    if |observations| > 1 {
      ClaimsFromTheFront(observations[..|observations| - 1]);
      assert observations[..|observations| - 1][1..] == observations[1..][..|observations| - 2];
    }
  }

  lemma {:induction false} ClaimsExactly(observations: seq<Observation>)
    ensures TotalWeight(observations) == Claims(observations)
  {
    if observations != [] {
      ClaimsExactly(observations[1..]);
      ClaimsFromTheFront(observations);
    }
  }

  lemma {:induction false} WeightedAt(observations: seq<Observation>, available: nat, total: int, i: nat)
    requires total > 0 && i < |observations|
    ensures |Weighted(observations, available, total)| == |observations|
    ensures Weighted(observations, available, total)[i]
      == var part := available * Claim(observations[i]) / total; if part < 100 then 100 else part
  {
    SharesLength(observations, available, total, 0);
    if i > 0 { WeightedAt(observations[1..], available, total, i - 1); }
  }

  /** Result `i` of `d` is abbreviated to this share of what is left. */
  predicate Given(text: Text, c: Context, d: Context, i: nat, share: int) {
    && i < |c.observations| == |d.observations|
    && d.observations[i].result
       == CompactResult(text, c.observations[i].result, share, Clipped(c.observations[i].interpretation, 180))
  }

  /** What one result gets of `available` characters: by its weight among all, but at least 100. */
  function ByWeight(c: Context, available: nat, i: nat): int
    requires i < |c.observations|
  {
    var part := available * Claim(c.observations[i]) / Claims(c.observations);
    if part < 100 then 100 else part
  }

  lemma {:induction false} ClaimsArePositive(observations: seq<Observation>)
    requires observations != []
    ensures Claims(observations) > 0
  {
  }

  lemma FirstPassShares(text: Text, c: Context, budget: int, i: nat)
    requires Available(text, c, budget) >= 0 && i < |c.observations|
    ensures Given(text, c, FirstPass(text, c, budget), i, ByWeight(c, Available(text, c, budget), i))
  {
    var available := Available(text, c, budget);
    ClaimsExactly(c.observations);
    ClaimsArePositive(c.observations);
    WeightedAt(c.observations, available, Claims(c.observations), i);
  }

  lemma EqualPassShares(text: Text, c: Context, budget: int, i: nat)
    requires Available(text, c, budget) >= 0 && i < |c.observations|
    ensures Given(text, c, EqualPass(text, c, budget), i, Available(text, c, budget) / |c.observations|)
  {
    SharesLength(c.observations, 0, 1, Available(text, c, budget) / |c.observations|);
  }

  /** Beyond the budget, what is left is shared by weight; equally only if that overruns. */
  lemma SharesExactly(text: Text, c: Context, budget: int)
    requires ContextSize(c) > budget && Compacted(text, c, budget).Fits?
    ensures var d, available := Compacted(text, c, budget).value, Available(text, c, budget);
      && available >= 100 * |c.observations|
      && ((forall i: nat :: i < |c.observations| ==> Given(text, c, d, i, ByWeight(c, available, i)))
         || (ContextSize(FirstPass(text, c, budget)) > budget
            && forall i: nat :: i < |c.observations| ==> Given(text, c, d, i, available / |c.observations|)))
  {
    SuccessIsAPass(text, c, budget);
    var d := Compacted(text, c, budget).value;
    if ContextSize(FirstPass(text, c, budget)) <= budget {
      forall i: nat | i < |c.observations| ensures Given(text, c, d, i, ByWeight(c, Available(text, c, budget), i)) {
        FirstPassShares(text, c, budget, i);
      }
    } else {
      forall i: nat | i < |c.observations| ensures Given(text, c, d, i, Available(text, c, budget) / |c.observations|) {
        EqualPassShares(text, c, budget, i);
      }
    }
  }
}
