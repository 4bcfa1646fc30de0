/** From the registry to the executor: what the model is offered, it may run. */
module OfferedCalls {
  import opened JsonValues
  import opened Narrowing
  import opened Schema
  import opened Tools
  import A = AgentLoop
  import C = Compaction
  import R = Records
  import S = Sampling

  /** The registry lists the tool as the context does, before compaction. */
  predicate ListedRead(settings: R.Settings, tool: Tool) {
    && tool.name in READ_TOOLS && !IsWrite(tool.name) && tool.name in settings.registry
    && settings.registry[tool.name].risk.ReadOnly? && settings.registry[tool.name].parameters == tool.parameters
    && Lookup(tool.parameters, "type") == Some(JStr("object"))
  }

  /** References in a tool's own parameters. */
  function Own(sem: Semantics, parameters: Json): Scope {
    Scope(sem, Definitions(parameters), sem.depth)
  }

  /** A tool keeps its name and, up to annotations, its parameters. */
  lemma CompactedTool(text: S.Text, c: C.Context, budget: int, j: nat)
    requires C.Compacted(text, c, budget).Fits? && j < |C.Compacted(text, c, budget).value.tools|
    ensures j < |c.tools|
    ensures var before, after := c.tools[j].tool, C.Compacted(text, c, budget).value.tools[j].tool;
      after.name == before.name
        && (after.parameters == before.parameters || after.parameters == CompactSchema(before.parameters))
  {
    C.CompactionKeeps(text, c, budget);
  }

  lemma OfferedIsAccepted(sem: Semantics, tool: Tool, seen: seq<Seen>, arguments: seq<Field>)
    requires A.Offered(Own(sem, tool.parameters), tool, seen, arguments)
    ensures Accepts(sem, tool.parameters, JObj(arguments))
  {
    NarrowedNeverWidens(Own(sem, tool.parameters), tool, seen, JObj(arguments));
  }

  /** A call that the narrowed parameters of the compacted context admit is permitted by the
      registry's own parameters, and is not refused as a duplicate. */
  lemma OfferedCallsRun(settings: R.Settings, text: S.Text, c: C.Context, budget: int, j: nat, arguments: seq<Field>,
                        calls: set<string>)
    requires C.Compacted(text, c, budget).Fits? && j < |C.Compacted(text, c, budget).value.tools|
    requires j < |c.tools| && ListedRead(settings, c.tools[j].tool)
    requires var d := C.Compacted(text, c, budget).value;
      var tool := d.tools[j].tool;
      A.Offered(Own(settings.sem, tool.parameters), tool, C.SeenIn(d.observations), arguments)
    requires A.AllRecorded(calls, C.SeenIn(c.observations))
    ensures R.Permitted(settings, c.tools[j].tool.name, JObj(arguments), false)
    ensures A.Signature(c.tools[j].tool.name, arguments) !in calls
  {
    var d := C.Compacted(text, c, budget).value;
    var before, after := c.tools[j].tool, d.tools[j].tool;
    CompactedTool(text, c, budget, j);
    C.CompactionKeepsSeen(text, c, budget);
    A.OfferedIsNoDuplicate(Own(settings.sem, after.parameters), after, C.SeenIn(d.observations), arguments, calls);
    OfferedIsAccepted(settings.sem, after, C.SeenIn(d.observations), arguments);
    CompactAccepts(settings.sem, before.parameters, JObj(arguments));
  }
}
