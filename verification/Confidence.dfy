/** The evidence-based ceiling on a diagnosis' confidence, in hundredths. */
module Confidence {
  import opened Arithmetic

  /** `failure` is whether the result's text reports a failure, as the log pattern decides. */
  datatype Evidence = Evidence(tool: string, ok: bool, failure: bool)

  function Family(tool: string): string {
    if tool in ["docker_list", "docker_inspect"] then "container_state"
    else if IsLog(tool) then "logs"
    else if tool in ["service_status", "cloudflared_status"] then "service_state"
    else if tool == "http_check" then "http"
    else if tool == "port_check" then "tcp"
    else if tool == "ping_host" then "network_probe"
    else if tool == "network_interfaces" then "interfaces"
    else if tool == "route_table" then "routes"
    else tool
  }

  predicate IsLog(tool: string) {
    tool in ["docker_logs", "journal_logs"]
  }

  function Families(observations: seq<Evidence>): set<string> {
    set o | o in observations && o.ok :: Family(o.tool)
  }

  predicate DirectFailure(observations: seq<Evidence>) {
    exists o | o in observations :: o.ok && IsLog(o.tool) && o.failure
  }

  predicate SomeFailed(observations: seq<Evidence>) {
    exists o | o in observations :: !o.ok
  }

  /** The ceiling from the number of families, the failure log, the distinct contradictions and
      whether any call failed. */
  function CeilingOf(families: nat, failure: bool, conflicts: nat, failed: bool): int {
    var base := if families > 0 then Min(85, 25 + 15 * families) else 15;
    var direct := if failure then Min(95, base + 10) else base;
    var disputed := if conflicts > 0 then Max(15, direct - Min(40, 20 * conflicts)) else direct;
    if failed then Max(15, disputed - 10) else disputed
  }

  function Ceiling(observations: seq<Evidence>, contradictions: set<string>): int {
    CeilingOf(|Families(observations)|, DirectFailure(observations), |contradictions|, SomeFailed(observations))
  }

  function Confidence(observations: seq<Evidence>, proposed: int, contradictions: set<string>): int {
    Min(proposed, Ceiling(observations, contradictions))
  }

  lemma CeilingBounded(observations: seq<Evidence>, contradictions: set<string>, proposed: int)
    ensures 15 <= Ceiling(observations, contradictions) <= 95
    ensures Confidence(observations, proposed, contradictions) <= proposed
  {
  }

  lemma CeilingMonotone(f: nat, g: nat, d: bool, e: bool, c: nat, x: bool)
    requires f <= g && (d ==> e)
    ensures CeilingOf(f, d, c, x) <= CeilingOf(g, e, c, x)
  {
  }

  lemma MoreFamilies(a: set<string>, b: set<string>)
    requires a <= b
    ensures |a| <= |b|
  {
    if a != {} {
      var x :| x in a;
      MoreFamilies(a - {x}, b - {x});
    }
  }

  /** What one more observation, anywhere in the list, changes. */
  lemma OneMore(before: seq<Evidence>, after: seq<Evidence>, o: Evidence)
    ensures Families(before + [o] + after) == Families(before + after) + if o.ok then {Family(o.tool)} else {}
    ensures DirectFailure(before + [o] + after)
      == (DirectFailure(before + after) || (o.ok && IsLog(o.tool) && o.failure))
    ensures SomeFailed(before + [o] + after) == (SomeFailed(before + after) || !o.ok)
  {
    var x, y := before + after, before + [o] + after;
    assert o in y && forall e :: e in y <==> e in x || e == o;
  }

  /** A successful observation never lowers the ceiling; one of a family already seen, that is no
      log, does not change it. */
  lemma SuccessNeverLowers(before: seq<Evidence>, after: seq<Evidence>, o: Evidence, contradictions: set<string>)
    requires o.ok
    ensures Ceiling(before + [o] + after, contradictions) >= Ceiling(before + after, contradictions)
    ensures Family(o.tool) in Families(before + after) && !IsLog(o.tool) ==>
      Ceiling(before + [o] + after, contradictions) == Ceiling(before + after, contradictions)
  {
    OneMore(before, after, o);
    var f, g := Families(before + after), Families(before + [o] + after);
    MoreFamilies(f, g);
    if Family(o.tool) in f { assert g == f; }
    CeilingMonotone(|f|, |g|, DirectFailure(before + after), DirectFailure(before + [o] + after), |contradictions|,
      SomeFailed(before + after));
  }

  lemma ContradictionNeverRaises(observations: seq<Evidence>, contradictions: set<string>, id: string)
    ensures Ceiling(observations, contradictions + {id}) <= Ceiling(observations, contradictions)
    ensures id in contradictions
      ==> Ceiling(observations, contradictions + {id}) == Ceiling(observations, contradictions)
  {
    if id in contradictions {
      assert contradictions + {id} == contradictions;
    } else {
      assert |contradictions + {id}| == |contradictions| + 1;
    }
  }

  /** Only the families, the failure log, the number of contradictions and whether a call failed matter. */
  lemma NothingElseMatters(a: seq<Evidence>, b: seq<Evidence>, c: set<string>, d: set<string>)
    requires Families(a) == Families(b) && DirectFailure(a) == DirectFailure(b) && SomeFailed(a) == SomeFailed(b)
      && |c| == |d|
    ensures Ceiling(a, c) == Ceiling(b, d)
  {
  }

  // --- What the numbers are ---

  /** The ceiling in words: 40 for one independent family, 15 more for each further one up to 85, and 15 without
      any; 10 more for a failure log, at most 95; 20 less for one contradiction, 40 less for more; 10 less for
      a failed call; and never below 15. */
  lemma CeilingExactly(families: nat, failure: bool, conflicts: nat, failed: bool)
    ensures var base := if families == 0 then 15 else if families == 1 then 40 else if families == 2 then 55
                        else if families == 3 then 70 else 85;
      var bonus := if !failure then 0 else 10;
      var malus := if conflicts == 0 then 0 else if conflicts == 1 then 20 else 40;
      var disputed := if base + bonus - malus < 15 then 15 else base + bonus - malus;
      CeilingOf(families, failure, conflicts, failed)
      == if !failed then disputed else if disputed < 25 then 15 else disputed - 10
  {
  }

  /** Two diagnostics that count as one source. */
  predicate Akin(s: string, t: string) {
    || s == t
    || (s in ["docker_list", "docker_inspect"] && t in ["docker_list", "docker_inspect"])
    || (s in ["docker_logs", "journal_logs"] && t in ["docker_logs", "journal_logs"])
    || (s in ["service_status", "cloudflared_status"] && t in ["service_status", "cloudflared_status"])
  }

  /** Names that the program gives to sources and to no diagnostic. */
  predicate NamesSource(s: string) {
    s in ["container_state", "logs", "service_state", "http", "tcp", "network_probe", "interfaces", "routes"]
  }

  /** Containers' states are one source, logs are one and units' states are one, and every other diagnostic is a
      source of its own. */
  lemma FamiliesExactly(s: string, t: string)
    requires !NamesSource(s) && !NamesSource(t)
    ensures Family(s) == Family(t) <==> Akin(s, t)
  {
    if Family(s) == Family(t) { SameSource(s, t); }
  }

  lemma SameSource(s: string, t: string)
    requires !NamesSource(s) && !NamesSource(t) && Family(s) == Family(t)
    ensures Akin(s, t)
  {
  }
}
